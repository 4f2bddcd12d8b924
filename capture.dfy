/** Microphone capture: the capture object's settings, the error raised when
    the input stream cannot be opened, the hand-over of audio blocks from the
    device callback to the consuming generator through a queue that a `None`
    sentinel closes, and the listing of input devices. The sample conversion
    to PCM16 and the base64 encoding of the chunks are not modelled: a chunk
    is the block's bytes. */
module Capture {
  import opened Wrappers
  import opened TextUtil
  import Exceptions

  /** A device as the caller names it: by name or by index. */
  datatype DeviceRef = Name(name: string) | Index(index: int)

  /** `device if device != "default" else None`. */
  function NormaliseDevice(device: Option<DeviceRef>): (r: Option<DeviceRef>)
    ensures r.None? <==> device.None? || device == Some(Name("default"))
    ensures r.Some? ==> r == device
  {
    if device == Some(Name("default")) then None else device
  }

  /** `int(x / 1000)`: the quotient truncated toward zero (exact while the
      float division is). */
  function TruncThousandth(x: int): (r: int)
    ensures 0 <= x ==> 0 <= r && 1000 * r <= x < 1000 * r + 1000
    ensures x < 0 ==> r <= 0 && 1000 * r - 1000 < x <= 1000 * r
  {
    if x >= 0 then x / 1000 else -((-x) / 1000)
  }

  /** `chunk_samples`: the samples of one chunk. */
  function ChunkSamples(sampleRate: int, chunkDurationMs: int): int {
    TruncThousandth(sampleRate * chunkDurationMs)
  }

  /** 16 kHz at 80 ms gives 1280 samples; 44.1 kHz at 30 ms gives 1323. */
  lemma ChunkSamplesExamples()
    ensures ChunkSamples(16000, 80) == 1280
    ensures ChunkSamples(44100, 30) == 1323
    ensures ChunkSamples(16000, 1) == 16
  {
  }

  // ---------------------------------------------------------------------
  // Opening the input stream

  const NotFoundPrefix := "Audio input device not found (check that a microphone is connected): "
  const DeviceErrorPrefix := "Audio device error: "

  /** The `PortAudioError` message names a missing device: its lower-cased
      text has both "no" and "device", or "error querying device". */
  predicate NamesMissingDevice(message: string) {
    var lower := AsciiLower(message);
    (Contains(lower, "no") && Contains(lower, "device")) || Contains(lower, "error querying device")
  }

  /** The error `stream()` raises when the input stream fails to open. */
  function OpenError(message: string): (e: Exceptions.VTSError)
    ensures e.cls == Exceptions.AudioDeviceNotFound <==> NamesMissingDevice(message)
    ensures !NamesMissingDevice(message) ==> e.cls == Exceptions.AudioDevice
    ensures e.code == Exceptions.DefaultCode(e.cls)
    ensures Exceptions.Catches(Exceptions.AudioDevice, e)
  {
    if NamesMissingDevice(message) then Exceptions.Raise(Exceptions.AudioDeviceNotFound, NotFoundPrefix + message, None)
    else Exceptions.Raise(Exceptions.AudioDevice, DeviceErrorPrefix + message, None)
  }

  /** A string without some character of `w` does not contain `w`. */
  lemma MissingCharNotContained(doc: string, w: string, j: nat)
    requires j < |w|
    requires forall i :: 0 <= i < |doc| ==> doc[i] != w[j]
    ensures !Contains(doc, w)
  {
    if Contains(doc, w) {
      var i :| 0 <= i <= |doc| - |w| && OccursAt(doc, w, i);
      CharOfOccurrence(doc, w, i, j);
      assert false;
    }
  }

  lemma CharOfOccurrence(doc: string, w: string, i: int, j: nat)
    requires OccursAt(doc, w, i) && j < |w|
    ensures 0 <= i + j < |doc| && doc[i + j] == w[j]
  {
    assert doc[i..i + |w|][j] == w[j];
  }

  /** "No default input device" names a missing device. */
  lemma NoDefaultDeviceIsMissing(message: string)
    requires message == "No default input device"
    ensures OpenError(message).cls == Exceptions.AudioDeviceNotFound
  {
    var lower := AsciiLower(message);
    assert lower[0] == 'n' && lower[1] == 'o';
    assert lower[0..2] == "no";
    assert OccursAt(lower, "no", 0);
    assert lower[17] == 'd' && lower[18] == 'e' && lower[19] == 'v';
    assert lower[20] == 'i' && lower[21] == 'c' && lower[22] == 'e';
    assert lower[17..23] == "device";
    assert OccursAt(lower, "device", 17);
  }

  /** "Sample rate not supported" has "no" but no "device", so it is a plain
      device error. */
  lemma UnsupportedRateIsDeviceError(message: string)
    requires message == "Sample rate not supported"
    ensures OpenError(message).cls == Exceptions.AudioDevice
  {
    var lower := AsciiLower(message);
    MissingCharNotContained(lower, "device", 2);
    MissingCharNotContained(lower, "error querying device", 17);
  }

  // ---------------------------------------------------------------------
  // The capture object

  /** One step of the consuming generator. */
  datatype Step = Yielded(chunk: seq<byte>) | Blocked | Ended

  class AudioCapture {
    var sampleRate: int
    var channels: int
    var chunkDurationMs: int
    var device: Option<DeviceRef>
    var chunkSamples: int
    /** The queue between the device callback and the generator. */
    var queue: seq<Option<seq<byte>>>
    var running: bool
    /** `_loop is not None`: `stream()` has recorded its event loop. */
    var loopSet: bool
    /** `_stream is not None`. */
    var streamOpen: bool
    /** The generator is suspended in `queue.get()`, waiting for an item. */
    var waiting: bool
    /** The generator has returned. */
    var finished: bool

    constructor(sampleRate: int, channels: int, chunkDurationMs: int, device: Option<DeviceRef>)
      ensures this.sampleRate == sampleRate && this.channels == channels
      ensures this.chunkDurationMs == chunkDurationMs
      ensures this.device == NormaliseDevice(device)
      ensures chunkSamples == ChunkSamples(sampleRate, chunkDurationMs)
      ensures queue == [] && !running && !loopSet && !streamOpen && !waiting && !finished
    {
      this.sampleRate := sampleRate;
      this.channels := channels;
      this.chunkDurationMs := chunkDurationMs;
      this.device := NormaliseDevice(device);
      chunkSamples := ChunkSamples(sampleRate, chunkDurationMs);
      queue := [];
      running := false;
      loopSet := false;
      streamOpen := false;
      waiting := false;
      finished := false;
    }

    /** The start of `stream()`: record the loop, set the running flag and
        open the input stream, which fails with the `PortAudioError` message
        `failure` when one is given. */
    method Open(failure: Option<string>) returns (raised: Option<Exceptions.VTSError>)
      modifies this
      ensures raised == if failure.Some? then Some(OpenError(failure.value)) else None
      ensures loopSet && running
      ensures streamOpen == (old(streamOpen) || failure.None?)
      ensures finished == failure.Some? && !waiting
      ensures queue == old(queue)
      ensures sampleRate == old(sampleRate) && channels == old(channels)
      ensures chunkDurationMs == old(chunkDurationMs) && device == old(device)
      ensures chunkSamples == old(chunkSamples)
    {
      loopSet := true;
      running := true;
      waiting := false;
      if failure.Some? {
        finished := true;
        return Some(OpenError(failure.value));
      }
      streamOpen := true;
      finished := false;
      return None;
    }

    /** `_audio_callback`: the block goes onto the queue; with no loop
        recorded the hand-over fails and the block is dropped. */
    method Deliver(block: seq<byte>)
      modifies this
      ensures queue == if old(loopSet) then old(queue) + [Some(block)] else old(queue)
      ensures running == old(running) && loopSet == old(loopSet) && streamOpen == old(streamOpen)
      ensures waiting == old(waiting) && finished == old(finished)
      ensures sampleRate == old(sampleRate) && channels == old(channels)
      ensures chunkDurationMs == old(chunkDurationMs) && device == old(device)
      ensures chunkSamples == old(chunkSamples)
    {
      if loopSet {
        queue := queue + [Some(block)];
      }
    }

    /** `stop()`: clear the running flag and put the `None` sentinel, which
        only reaches the queue once a loop is recorded. */
    method Stop()
      modifies this
      ensures !running
      ensures queue == if old(loopSet) then old(queue) + [None] else old(queue)
      ensures loopSet == old(loopSet) && streamOpen == old(streamOpen)
      ensures waiting == old(waiting) && finished == old(finished)
      ensures sampleRate == old(sampleRate) && channels == old(channels)
      ensures chunkDurationMs == old(chunkDurationMs) && device == old(device)
      ensures chunkSamples == old(chunkSamples)
    {
      running := false;
      if loopSet {
        queue := queue + [None];
      }
    }

    /** One resumption of the generator's loop. The running flag is checked
        only at the head of the loop, not when a pending `get()` resumes; the
        sentinel ends the loop; on leaving it the stream is closed. */
    method Next() returns (step: Step)
      modifies this
      ensures old(finished) ==> step == Ended && queue == old(queue) && streamOpen == old(streamOpen)
      ensures !old(finished) && !old(waiting) && !old(running) ==>
                step == Ended && queue == old(queue) && !streamOpen
      ensures !old(finished) && (old(waiting) || old(running)) && old(queue) == [] ==>
                step == Blocked && waiting && queue == [] && streamOpen == old(streamOpen)
      ensures !old(finished) && (old(waiting) || old(running)) && old(queue) != [] ==>
                queue == old(queue)[1..] && !waiting
                && (if old(queue)[0].None? then step == Ended && !streamOpen
                    else step == Yielded(old(queue)[0].value) && streamOpen == old(streamOpen))
      ensures finished <==> step == Ended
      ensures step == Ended ==> !waiting
      ensures running == old(running) && loopSet == old(loopSet)
      ensures sampleRate == old(sampleRate) && channels == old(channels)
      ensures chunkDurationMs == old(chunkDurationMs) && device == old(device)
      ensures chunkSamples == old(chunkSamples)
    {
      if finished {
        waiting := false;
        return Ended;
      }
      if !waiting && !running {
        streamOpen := false;
        finished := true;
        return Ended;
      }
      if queue == [] {
        waiting := true;
        return Blocked;
      }
      var item := queue[0];
      queue := queue[1..];
      waiting := false;
      if item.None? {
        streamOpen := false;
        finished := true;
        return Ended;
      }
      return Yielded(item.value);
    }
  }

  /** `stop()` ends the stream at its next step, whether the generator is
      about to check the running flag or is waiting on an empty queue; the
      sentinel is what wakes the waiting one. */
  method StopEndsStream(c: AudioCapture) returns (step: Step)
    requires c.loopSet && !c.finished
    requires !c.waiting || c.queue == []
    modifies c
    ensures step == Ended && c.finished && !c.streamOpen
  {
    c.Stop();
    step := c.Next();
  }

  /** The collecting consumer of the tests: three blocks delivered, stop
      after the third chunk, and exactly those three chunks come out. */
  method ThreeChunks(a: seq<byte>, b: seq<byte>, d: seq<byte>) returns (chunks: seq<seq<byte>>)
    ensures chunks == [a, b, d]
  {
    var c := new AudioCapture(16000, 1, 80, None);
    assert c.chunkSamples == 1280;
    var raised := c.Open(None);
    var s0 := c.Next();
    assert s0 == Blocked;
    c.Deliver(a);
    var s1 := c.Next();
    c.Deliver(b);
    var s2 := c.Next();
    c.Deliver(d);
    var s3 := c.Next();
    chunks := [s1.chunk, s2.chunk, s3.chunk];
    var end := StopEndsStream(c);
    assert end == Ended && !c.streamOpen;
  }

  // ---------------------------------------------------------------------
  // Listing input devices

  /** A record of `sd.query_devices()`. */
  datatype DeviceInfo = DeviceInfo(name: string, maxInputChannels: int, defaultSampleRate: real)

  /** An entry of `list_devices()`. */
  datatype ListedDevice = ListedDevice(index: int, name: string, channels: int, sampleRate: real)

  predicate IsInput(d: DeviceInfo) {
    d.maxInputChannels > 0
  }

  function Describe(i: int, d: DeviceInfo): ListedDevice {
    ListedDevice(i, d.name, d.maxInputChannels, d.defaultSampleRate)
  }

  /** The entry of the device at position `i`, if it takes input. */
  function EntryOf(i: int, d: DeviceInfo): seq<ListedDevice> {
    if IsInput(d) then [Describe(i, d)] else []
  }

  /** What `list_devices` returns for the device list `ds`. */
  function Listing(ds: seq<DeviceInfo>): seq<ListedDevice> {
    if ds == [] then [] else Listing(ds[..|ds| - 1]) + EntryOf(|ds| - 1, ds[|ds| - 1])
  }

  /** The input devices, in order: what the health check counts. */
  function InputDevices(ds: seq<DeviceInfo>): seq<DeviceInfo> {
    if ds == [] then [] else InputDevices(ds[..|ds| - 1]) + (if IsInput(ds[|ds| - 1]) then [ds[|ds| - 1]] else [])
  }

  /** `list_devices()` over the queried devices `ds`. */
  method ListDevices(ds: seq<DeviceInfo>) returns (result: seq<ListedDevice>)
    ensures result == Listing(ds)
  {
    result := [];
    for i := 0 to |ds|
      invariant result == Listing(ds[..i])
    {
      assert ds[..i + 1][..i] == ds[..i];
      result := result + EntryOf(i, ds[i]);
    }
    assert ds[..|ds|] == ds;
  }

  /** The entry describes an input device of `ds` at its own position. */
  predicate Describes(e: ListedDevice, ds: seq<DeviceInfo>) {
    0 <= e.index < |ds| && IsInput(ds[e.index]) && e == Describe(e.index, ds[e.index])
  }

  predicate AllDescribe(l: seq<ListedDevice>, ds: seq<DeviceInfo>) {
    forall k :: 0 <= k < |l| ==> Describes(l[k], ds)
  }

  predicate Increasing(l: seq<ListedDevice>) {
    forall k, m :: 0 <= k < m < |l| ==> l[k].index < l[m].index
  }

  predicate Covers(l: seq<ListedDevice>, ds: seq<DeviceInfo>) {
    forall i :: 0 <= i < |ds| && IsInput(ds[i]) ==> exists k :: 0 <= k < |l| && l[k].index == i
  }

  /** Every entry is an input device, described at its position in the full
      list: its index, its name, its channel count and its sample rate. */
  lemma {:induction false} ListingDescribes(ds: seq<DeviceInfo>)
    ensures AllDescribe(Listing(ds), ds)
  {
    if ds != [] {
      var front := ds[..|ds| - 1];
      ListingDescribes(front);
      var l := Listing(ds);
      forall k | 0 <= k < |l|
        ensures Describes(l[k], ds)
      {
        if k < |Listing(front)| {
          assert l[k] == Listing(front)[k];
          assert Describes(Listing(front)[k], front);
        }
      }
    }
  }

  /** The entries keep the order of the device list. */
  lemma {:induction false} ListingIncreasing(ds: seq<DeviceInfo>)
    ensures Increasing(Listing(ds))
  {
    if ds != [] {
      var front := ds[..|ds| - 1];
      ListingIncreasing(front);
      ListingDescribes(front);
      var l := Listing(ds);
      forall k, m | 0 <= k < m < |l|
        ensures l[k].index < l[m].index
      {
        assert l[k] == Listing(front)[k];
        if m < |Listing(front)| {
          assert l[m] == Listing(front)[m];
        } else {
          assert Describes(Listing(front)[k], front);
        }
      }
    }
  }

  /** Every input device is listed. */
  lemma {:induction false} ListingCovers(ds: seq<DeviceInfo>)
    ensures Covers(Listing(ds), ds)
  {
    if ds != [] {
      var front := ds[..|ds| - 1];
      ListingCovers(front);
      var l := Listing(ds);
      forall i | 0 <= i < |ds| && IsInput(ds[i])
        ensures exists k :: 0 <= k < |l| && l[k].index == i
      {
        if i < |front| {
          assert front[i] == ds[i];
          var k :| 0 <= k < |Listing(front)| && Listing(front)[k].index == i;
          assert l[k] == Listing(front)[k];
        } else {
          assert l[|l| - 1] == Describe(i, ds[i]);
        }
      }
    }
  }

  /** There are as many entries as input devices. */
  lemma {:induction false} ListingCountsInputs(ds: seq<DeviceInfo>)
    ensures |Listing(ds)| == |InputDevices(ds)|
  {
    if ds != [] {
      ListingCountsInputs(ds[..|ds| - 1]);
    }
  }

  /** The devices of the tests: a microphone and a speaker give the
      microphone alone; a speaker alone gives nothing. */
  lemma ListingExamples()
    ensures Listing([DeviceInfo("Test Mic", 2, 44100.0), DeviceInfo("Speaker", 0, 44100.0)])
            == [ListedDevice(0, "Test Mic", 2, 44100.0)]
    ensures Listing([DeviceInfo("Speaker", 0, 44100.0)]) == []
  {
    var ds := [DeviceInfo("Test Mic", 2, 44100.0), DeviceInfo("Speaker", 0, 44100.0)];
    assert ds[..1] == [ds[0]];
    assert [ds[0]][..0] == [];
    assert [DeviceInfo("Speaker", 0, 44100.0)][..0] == [];
  }
}
