/** The per-segment quality filter that both the live transcriber
    (`WhisperSession._transcribe_chunk`) and the file transcriber
    (`_transcribe_to_queue`) apply to the recognizer's segments: a segment is
    dropped when its stripped text is empty, when its compression ratio is above
    the threshold, or when its average log-probability is below the threshold. A
    metric the segment does not carry (`hasattr` is false) never drops it. */
module QualityFilter {
  import opened Wrappers
  import opened TextUtil

  /** One segment as the recognizer reports it. The two metrics are compared with
      the thresholds and nothing else; times are already in milliseconds. */
  datatype RecognizedSegment = RecognizedSegment(
    text: string,
    compressionRatio: Option<real>,
    avgLogprob: Option<real>,
    startMs: int,
    endMs: int)

  datatype Thresholds = Thresholds(compressionRatio: real, logProb: real)

  predicate TooCompressed(seg: RecognizedSegment, th: Thresholds) {
    seg.compressionRatio.Some? && seg.compressionRatio.value > th.compressionRatio
  }

  predicate TooUnlikely(seg: RecognizedSegment, th: Thresholds) {
    seg.avgLogprob.Some? && seg.avgLogprob.value < th.logProb
  }

  /** The segment survives the filter. */
  predicate Kept(seg: RecognizedSegment, th: Thresholds) {
    Strip(seg.text) != "" && !TooCompressed(seg, th) && !TooUnlikely(seg, th)
  }

  /** Both comparisons are strict: a metric equal to its threshold, or absent,
      keeps a segment with visible text. */
  lemma ThresholdsAreStrict(seg: RecognizedSegment, th: Thresholds)
    requires Strip(seg.text) != ""
    requires seg.compressionRatio.None? || seg.compressionRatio.value <= th.compressionRatio
    requires seg.avgLogprob.None? || seg.avgLogprob.value >= th.logProb
    ensures Kept(seg, th)
  {
  }

  /** The stripped texts of the kept segments, in recognizer order. */
  function KeptTexts(segs: seq<RecognizedSegment>, th: Thresholds): (r: seq<string>)
    ensures |r| <= |segs|
  {
    if segs == [] then [] else Contribution(segs[0], th) + KeptTexts(segs[1..], th)
  }

  /** What one segment adds: its stripped text if it is kept, nothing otherwise. */
  function Contribution(seg: RecognizedSegment, th: Thresholds): seq<string> {
    if Kept(seg, th) then [Strip(seg.text)] else []
  }

  /** Filtering distributes over concatenation, so the relative order of the kept
      segments is the recognizer's. */
  lemma {:induction false} KeptTextsAppend(a: seq<RecognizedSegment>, b: seq<RecognizedSegment>, th: Thresholds)
    ensures KeptTexts(a + b, th) == KeptTexts(a, th) + KeptTexts(b, th)
    decreases |a|
  {
    if a == [] {
      assert a + b == b;
    } else {
      assert (a + b)[0] == a[0];
      assert (a + b)[1..] == a[1..] + b;
      KeptTextsAppend(a[1..], b, th);
    }
  }

  /** What one segment contributes. */
  lemma KeptTextsStep(prefix: seq<RecognizedSegment>, seg: RecognizedSegment, th: Thresholds)
    ensures KeptTexts(prefix + [seg], th) == KeptTexts(prefix, th) + Contribution(seg, th)
  {
    KeptTextsAppend(prefix, [seg], th);
    assert [seg][1..] == [];
  }

  /** One more segment of the same list. */
  lemma KeptTextsPrefix(segs: seq<RecognizedSegment>, i: nat, th: Thresholds)
    requires i < |segs|
    ensures KeptTexts(segs[..i + 1], th) == KeptTexts(segs[..i], th) + Contribution(segs[i], th)
  {
    assert segs[..i + 1] == segs[..i] + [segs[i]];
    KeptTextsStep(segs[..i], segs[i], th);
  }

  /** A text is among the kept texts exactly when some kept segment strips to it. */
  lemma {:induction false} KeptTextsMembers(segs: seq<RecognizedSegment>, th: Thresholds, x: string)
    ensures x in KeptTexts(segs, th)
            <==> exists i :: 0 <= i < |segs| && Kept(segs[i], th) && Strip(segs[i].text) == x
    decreases |segs|
  {
    if segs != [] {
      KeptTextsMembers(segs[1..], th, x);
      if x in KeptTexts(segs[1..], th) {
        var i :| 0 <= i < |segs[1..]| && Kept(segs[1..][i], th) && Strip(segs[1..][i].text) == x;
        assert segs[i + 1] == segs[1..][i];
      }
      if exists i :: 0 <= i < |segs| && Kept(segs[i], th) && Strip(segs[i].text) == x {
        var i :| 0 <= i < |segs| && Kept(segs[i], th) && Strip(segs[i].text) == x;
        if i > 0 {
          assert segs[1..][i - 1] == segs[i];
        }
      }
    }
  }

  /** Every kept text is non-empty and already stripped. */
  lemma {:induction false} KeptTextsAreStripped(segs: seq<RecognizedSegment>, th: Thresholds)
    ensures forall i :: 0 <= i < |KeptTexts(segs, th)| ==> IsStrippedWord(KeptTexts(segs, th)[i])
    decreases |segs|
  {
    if segs != [] {
      KeptTextsAreStripped(segs[1..], th);
      var c := Contribution(segs[0], th);
      var rest := KeptTexts(segs[1..], th);
      assert KeptTexts(segs, th) == c + rest;
      if c != [] {
        StripEnds(segs[0].text);
      }
      forall i | 0 <= i < |c + rest|
        ensures IsStrippedWord((c + rest)[i])
      {
        if i >= |c| {
          assert (c + rest)[i] == rest[i - |c|];
        }
      }
    }
  }

  /** Non-empty, with no whitespace at either end. */
  predicate IsStrippedWord(s: string) {
    s != [] && !IsSpace(s[0]) && !IsSpace(s[|s| - 1])
  }

  /** `strip()` leaves a stripped word unchanged. */
  lemma StrippedWordIsFixpoint(s: string)
    requires IsStrippedWord(s)
    ensures Strip(s) == s
  {
    assert TrimLeft(s) == s;
    assert TrimRight(s) == s;
  }

  /** Joining stripped pieces with single spaces gives a stripped word when
      there is at least one piece, and the empty text otherwise. */
  lemma {:induction false} JoinOfStrippedIsStripped(parts: seq<string>)
    requires forall i :: 0 <= i < |parts| ==> IsStrippedWord(parts[i])
    ensures parts == [] ==> JoinSpace(parts) == ""
    ensures parts != [] ==> IsStrippedWord(JoinSpace(parts))
    decreases |parts|
  {
    if |parts| > 1 {
      JoinOfStrippedIsStripped(parts[1..]);
      var rest := JoinSpace(parts[1..]);
      var j := parts[0] + " " + rest;
      assert JoinSpace(parts) == j;
      assert j[0] == parts[0][0];
      assert j[|j| - 1] == rest[|rest| - 1];
    }
  }

  /** The loop of `_transcribe_chunk` over the recognizer's segments: keep the
      stripped text of every segment that passes the filter, then join the kept
      texts with single spaces. */
  method JoinKeptSegments(segs: seq<RecognizedSegment>, th: Thresholds) returns (result: string)
    ensures result == JoinSpace(KeptTexts(segs, th))
  {
    var parts: seq<string> := [];
    for i := 0 to |segs|
      invariant parts == KeptTexts(segs[..i], th)
    {
      KeptTextsPrefix(segs, i, th);
      var piece := FilterSegment(segs[i], th);
      parts := parts + piece;
    }
    assert segs[..|segs|] == segs;
    result := JoinSpace(parts);
  }

  /** The three `continue` tests of the loop body for one segment. */
  method FilterSegment(seg: RecognizedSegment, th: Thresholds) returns (piece: seq<string>)
    ensures piece == Contribution(seg, th)
  {
    var text := Strip(seg.text);
    if text == "" {
      return [];
    }
    if seg.compressionRatio.Some? && seg.compressionRatio.value > th.compressionRatio {
      return [];
    }
    if seg.avgLogprob.Some? && seg.avgLogprob.value < th.logProb {
      return [];
    }
    return [text];
  }
}
