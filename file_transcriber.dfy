/** File transcription (`backend/src/transcription/file_transcriber.py`): a
    worker thread consumes the recognizer's lazy segment generator, applies the
    same quality filter as the live transcriber, converts each kept segment to
    a timestamped `TranscriptionSegment` and puts it on a queue that ends with
    one `None` sentinel; the caller waits until the audio duration is known,
    re-raises an error the worker has already recorded, and otherwise returns
    the duration and a stream over the queue. */
module FileTranscriber {
  import opened Wrappers
  import opened TextUtil
  import opened QualityFilter
  import opened SentinelQueue

  /** A segment as the file transcriber emits it; `confidence` is the average
      log-probability, used as a proxy. */
  datatype TranscriptionSegment = TranscriptionSegment(text: string, startMs: int, endMs: int, confidence: real)

  /** The conversion of one kept segment: its stripped text, its times, and
      its average log-probability or `0.0` when it has none. */
  function ToTranscriptionSegment(seg: RecognizedSegment): TranscriptionSegment {
    TranscriptionSegment(Strip(seg.text), seg.startMs, seg.endMs, seg.avgLogprob.GetOr(0.0))
  }

  /** What one generator segment puts on the queue. */
  function FileContribution(seg: RecognizedSegment, th: Thresholds): seq<TranscriptionSegment> {
    if Kept(seg, th) then [ToTranscriptionSegment(seg)] else []
  }

  /** The segments the worker emits for the generator's `produced` segments, in
      generator order. */
  function FileSegments(produced: seq<RecognizedSegment>, th: Thresholds): (r: seq<TranscriptionSegment>)
    ensures |r| <= |produced|
  {
    if produced == [] then [] else FileContribution(produced[0], th) + FileSegments(produced[1..], th)
  }

  lemma {:induction false} FileSegmentsAppend(a: seq<RecognizedSegment>, b: seq<RecognizedSegment>, th: Thresholds)
    ensures FileSegments(a + b, th) == FileSegments(a, th) + FileSegments(b, th)
    decreases |a|
  {
    if a == [] {
      assert a + b == b;
    } else {
      assert (a + b)[0] == a[0];
      assert (a + b)[1..] == a[1..] + b;
      FileSegmentsAppend(a[1..], b, th);
    }
  }

  lemma FileSegmentsStep(prefix: seq<RecognizedSegment>, seg: RecognizedSegment, th: Thresholds)
    ensures FileSegments(prefix + [seg], th) == FileSegments(prefix, th) + FileContribution(seg, th)
  {
    FileSegmentsAppend(prefix, [seg], th);
    assert [seg][1..] == [];
  }

  lemma FileSegmentsPrefix(produced: seq<RecognizedSegment>, i: nat, th: Thresholds)
    requires i < |produced|
    ensures FileSegments(produced[..i + 1], th) == FileSegments(produced[..i], th) + FileContribution(produced[i], th)
  {
    assert produced[..i + 1] == produced[..i] + [produced[i]];
    FileSegmentsStep(produced[..i], produced[i], th);
  }

  /** A segment is emitted exactly when some generator segment passes the
      filter (non-blank text, compression ratio not above and log-probability
      not below its threshold) and converts to it. */
  lemma {:induction false} FileSegmentsMembers(produced: seq<RecognizedSegment>, th: Thresholds, t: TranscriptionSegment)
    ensures t in FileSegments(produced, th)
            <==> exists i :: 0 <= i < |produced| && Kept(produced[i], th) && ToTranscriptionSegment(produced[i]) == t
    decreases |produced|
  {
    if produced != [] {
      FileSegmentsMembers(produced[1..], th, t);
      if t in FileSegments(produced[1..], th) {
        var i :| 0 <= i < |produced[1..]| && Kept(produced[1..][i], th) && ToTranscriptionSegment(produced[1..][i]) == t;
        assert produced[i + 1] == produced[1..][i];
      }
      if exists i :: 0 <= i < |produced| && Kept(produced[i], th) && ToTranscriptionSegment(produced[i]) == t {
        var i :| 0 <= i < |produced| && Kept(produced[i], th) && ToTranscriptionSegment(produced[i]) == t;
        if i > 0 {
          assert produced[1..][i - 1] == produced[i];
        }
      }
    }
  }

  /** The texts of a list of emitted segments. */
  function SegmentTexts(ts: seq<TranscriptionSegment>): (r: seq<string>)
    ensures |r| == |ts|
  {
    if ts == [] then [] else [ts[0].text] + SegmentTexts(ts[1..])
  }

  lemma {:induction false} SegmentTextsAppend(a: seq<TranscriptionSegment>, b: seq<TranscriptionSegment>)
    ensures SegmentTexts(a + b) == SegmentTexts(a) + SegmentTexts(b)
    decreases |a|
  {
    if a == [] {
      assert a + b == b;
    } else {
      assert (a + b)[1..] == a[1..] + b;
      SegmentTextsAppend(a[1..], b);
    }
  }

  /** Both transcribers keep the same texts: the file transcriber emits, in
      order, one segment per text the live transcriber would join, carrying
      that text. */
  lemma {:induction false} FileSegmentsTexts(produced: seq<RecognizedSegment>, th: Thresholds)
    ensures SegmentTexts(FileSegments(produced, th)) == KeptTexts(produced, th)
    decreases |produced|
  {
    if produced != [] {
      FileSegmentsTexts(produced[1..], th);
      SegmentTextsAppend(FileContribution(produced[0], th), FileSegments(produced[1..], th));
    }
  }

  /** What the recognizer does with the file: it raises at once (before the
      duration is known), or reports the duration and yields `produced`,
      raising afterwards when `raises` holds. */
  datatype FileRun = FailsAtStart | Runs(durationS: real, produced: seq<RecognizedSegment>, raises: bool)

  /** The worker thread `_transcribe_to_queue`: the queue it fills, the
      duration it records and whether it recorded an error. The sentinel is
      put in its `finally`, so the queue ends with it on every path. */
  method TranscribeToQueue(run: FileRun, th: Thresholds)
      returns (queue: seq<Option<TranscriptionSegment>>, durationS: real, error: bool)
    ensures run.FailsAtStart? ==> queue == [None] && durationS == 0.0 && error
    ensures run.Runs? ==>
              queue == Wrap(FileSegments(run.produced, th)) + [None]
              && durationS == run.durationS && error == run.raises
  {
    queue := [];
    durationS := 0.0;
    error := false;
    if run.FailsAtStart? {
      error := true;
    } else {
      durationS := run.durationS;
      queue := PutKeptSegments(run.produced, th);
      error := run.raises;
    }
    queue := queue + [None];
  }

  /** The `for seg in segments_gen` loop. */
  method PutKeptSegments(produced: seq<RecognizedSegment>, th: Thresholds)
      returns (queue: seq<Option<TranscriptionSegment>>)
    ensures queue == Wrap(FileSegments(produced, th))
  {
    queue := [];
    for i := 0 to |produced|
      invariant queue == Wrap(FileSegments(produced[..i], th))
    {
      FileSegmentsPrefix(produced, i, th);
      WrapAppend(FileSegments(produced[..i], th), FileContribution(produced[i], th));
      var piece := ConvertSegment(produced[i], th);
      queue := queue + Wrap(piece);
    }
    assert produced[..|produced|] == produced;
  }

  /** The loop body: skip a blank or low-quality segment, else convert it. */
  method ConvertSegment(seg: RecognizedSegment, th: Thresholds) returns (piece: seq<TranscriptionSegment>)
    ensures piece == FileContribution(seg, th)
  {
    var text := Strip(seg.text);
    if text == "" {
      return [];
    }
    if seg.compressionRatio.Some? && seg.compressionRatio.value > th.compressionRatio {
      return [];
    }
    if seg.avgLogprob.Some? && seg.avgLogprob.value < th.logProb {
      return [];
    }
    var confidence := if seg.avgLogprob.Some? then seg.avgLogprob.value else 0.0;
    return [TranscriptionSegment(text, seg.startMs, seg.endMs, confidence)];
  }

  /** `_segment_stream`: the queued segments in order, up to the sentinel. */
  method SegmentStream(queue: seq<Option<TranscriptionSegment>>) returns (segs: seq<TranscriptionSegment>)
    ensures segs == UntilSentinel(queue)
  {
    var sawSentinel;
    segs, sawSentinel := Drain(queue);
  }

  /** The duration and the segments of a file transcription. */
  datatype FileTranscription = FileTranscription(durationS: real, segments: seq<TranscriptionSegment>)

  /** `transcribe_file_streaming`, with the stream consumed to its end. `None`
      means the recorded error was re-raised to the caller. An error at the
      start is always seen, since the ready event is set only after it is
      recorded; an error of the generator races with the caller's check after
      the ready event, and `lateErrorSeen` says which side won. */
  method TranscribeFileStreaming(run: FileRun, th: Thresholds, lateErrorSeen: bool)
      returns (r: Option<FileTranscription>)
    ensures run.FailsAtStart? ==> r.None?
    ensures run.Runs? && run.raises && lateErrorSeen ==> r.None?
    ensures run.Runs? && !(run.raises && lateErrorSeen) ==>
              r == Some(FileTranscription(run.durationS, FileSegments(run.produced, th)))
  {
    var queue, durationS, error := TranscribeToQueue(run, th);
    if error && (run.FailsAtStart? || lateErrorSeen) {
      return None;
    }
    var segs := SegmentStream(queue);
    UntilSentinelOfWrapped(FileSegments(run.produced, th), []);
    assert queue == Wrap(FileSegments(run.produced, th)) + [None] + [];
    return Some(FileTranscription(durationS, segs));
  }
}
