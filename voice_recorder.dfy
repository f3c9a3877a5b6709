/** The voice-activity-gated recorder of voicerecorder.py: the per-frame state
    machine of `record_audio_vad` (its three nonlocal variables and the two
    nested callbacks), a finite replay driver standing in for the live
    device, the error mapping of the device, and `array_to_pcm_bytes`. */
module VoiceRecorder {
  import opened Wrappers
  import opened BytesIo

  /** One block of 160 int16 samples as delivered by the device, as bytes. */
  type Frame = seq<Byte>

  /** The voice-activity classifier: `vad.is_speech(frame, sample_rate)`. */
  type Classifier = (Frame, nat) -> bool

  const DefaultSampleRate: nat := 16000
  /** Samples per frame: the stream's `blocksize`. */
  const BlockSize: nat := 160

  // ---------------------------------------------------------------------------
  // The float arithmetic of the thresholds, on exact reals

  /** Python's `int(x)` on a float: truncation toward zero. */
  function Trunc(x: real): (r: int)
    ensures 0.0 <= x ==> r as real <= x < r as real + 1.0
    ensures x < 0.0 ==> r as real - 1.0 < x <= r as real
  {
    if x >= 0.0 then x.Floor else -((-x).Floor)
  }

  /** The least integer not below `x`. */
  function Ceil(x: real): (r: int)
    ensures r as real - 1.0 < x <= r as real
  {
    -((-x).Floor)
  }

  /** `num_silent_frames_to_stop = int(max_silence_duration * sample_rate / 160)`. */
  function SilentFramesToStop(maxSilenceDuration: real, rate: nat): (r: int)
    ensures 0.0 <= maxSilenceDuration ==>
              0 <= r && (r as real) * (BlockSize as real) <= maxSilenceDuration * (rate as real)
              && maxSilenceDuration * (rate as real) < (r as real + 1.0) * (BlockSize as real)
    ensures maxSilenceDuration < 0.0 ==> r <= 0
  {
    Trunc(maxSilenceDuration * (rate as real) / (BlockSize as real))
  }

  /** The duration test `len(recorded_frames) * (160 / sample_rate) >= max_duration`. */
  predicate DurationReached(frameCount: nat, rate: nat, maxDuration: real)
    requires rate > 0
    ensures DurationReached(frameCount, rate, maxDuration)
            <==> (frameCount as real) * (BlockSize as real) >= maxDuration * (rate as real)
  {
    (frameCount as real) * ((BlockSize as real) / (rate as real)) >= maxDuration
  }

  /** The least frame count `n` with `n * 160 >= max_duration * sample_rate`. */
  function FrameBudget(maxDuration: real, rate: nat): int
  {
    Ceil(maxDuration * (rate as real) / (BlockSize as real))
  }

  lemma FrameBudgetIsLeast(maxDuration: real, rate: nat, n: int)
    ensures (n as real) * (BlockSize as real) >= maxDuration * (rate as real)
            <==> n >= FrameBudget(maxDuration, rate)
  {
    var x := maxDuration * (rate as real) / (BlockSize as real);
    assert x * (BlockSize as real) == maxDuration * (rate as real);
  }

  lemma DurationReachedIff(frameCount: nat, rate: nat, maxDuration: real)
    requires rate > 0
    ensures DurationReached(frameCount, rate, maxDuration)
            <==> frameCount >= FrameBudget(maxDuration, rate)
  {
    var n := frameCount as real;
    var q := (BlockSize as real) / (rate as real);
    var x := maxDuration * (rate as real) / (BlockSize as real);
    assert q * ((rate as real) / (BlockSize as real)) == 1.0;
    assert x == maxDuration / q;
    assert n * q >= maxDuration <==> n >= maxDuration / q;
  }

  // ---------------------------------------------------------------------------
  // The per-frame state machine

  /** The settings a recording session fixes before the first frame. */
  datatype Config = Config(rate: nat, maxDuration: real, silentFramesToStop: int)

  function MakeConfig(rate: nat, maxDuration: real, maxSilenceDuration: real): Config
  {
    Config(rate, maxDuration, SilentFramesToStop(maxSilenceDuration, rate))
  }

  /** The three variables `record_audio_vad` shares with its callbacks:
      `current_silence_duration`, `recorded_frames` and `recording_active`. */
  datatype Capture = Capture(silence: nat, frames: seq<Frame>, active: bool)

  function Initial(): Capture
  {
    Capture(0, [], true)
  }

  /** One call of `update_recording_status`: count or reset the trailing
      silence, test it with `>=`, append the frame, test the duration with
      `>=`. The flag is never set back to true, and the frame is appended
      whatever the flag says. */
  function Update(c: Config, s: Capture, frame: Frame, isSpeech: bool): (t: Capture)
    requires c.rate > 0
    ensures |t.frames| == |s.frames| + 1
    ensures t.frames[..|s.frames|] == s.frames && t.frames[|s.frames|] == frame
    ensures t.active ==> s.active
  {
    var silence := if !isSpeech then s.silence + 1 else 0;
    var active := s.active && !(silence >= c.silentFramesToStop);
    var frames := s.frames + [frame];
    Capture(silence, frames, active && !DurationReached(|frames|, c.rate, c.maxDuration))
  }

  /** The live callback: every delivered frame goes through `Update`,
      whether or not recording is still active, so every frame is kept, in
      order. */
  function Live(c: Config, s: Capture, input: seq<Frame>, vad: Classifier): (t: Capture)
    requires c.rate > 0
    ensures t.frames == s.frames + input
    decreases |input|
  {
    if input == [] then s
    else
      var s' := Update(c, s, input[0], vad(input[0], c.rate));
      assert s'.frames == s.frames + [input[0]];
      assert [input[0]] + input[1..] == input;
      Live(c, s', input[1..], vad)
  }

  /** The replay driver: frames are fed in order until the flag is false or
      the input is exhausted. */
  function Replay(c: Config, s: Capture, input: seq<Frame>, vad: Classifier): (t: Capture)
    requires c.rate > 0
    ensures !s.active ==> t == s
    ensures |s.frames| <= |t.frames| <= |s.frames| + |input|
    ensures t.active ==> |t.frames| == |s.frames| + |input|
    decreases |input|
  {
    if !s.active || input == [] then s
    else Replay(c, Update(c, s, input[0], vad(input[0], c.rate)), input[1..], vad)
  }

  // ---------------------------------------------------------------------------
  // What the state machine guarantees

  /** Once the flag is false it stays false, however many frames follow. */
  lemma {:induction false} StoppedStaysStopped(c: Config, s: Capture, input: seq<Frame>, vad: Classifier)
    requires c.rate > 0 && !s.active
    ensures !Live(c, s, input, vad).active
    decreases |input|
  {
    if input != [] {
      StoppedStaysStopped(c, Update(c, s, input[0], vad(input[0], c.rate)), input[1..], vad);
    }
  }

  /** The replayed recording is the old frames followed by a prefix of the
      input: nothing is dropped, reordered or invented. */
  lemma {:induction false} ReplayFrames(c: Config, s: Capture, input: seq<Frame>, vad: Classifier)
    requires c.rate > 0
    ensures var t := Replay(c, s, input, vad);
      |s.frames| <= |t.frames| <= |s.frames| + |input| &&
      t.frames == s.frames + input[..|t.frames| - |s.frames|]
    decreases |input|
  {
    if s.active && input != [] {
      var s' := Update(c, s, input[0], vad(input[0], c.rate));
      ReplayFrames(c, s', input[1..], vad);
      var k := |Replay(c, s', input[1..], vad).frames| - |s'.frames|;
      assert s'.frames == s.frames + [input[0]];
      assert [input[0]] + input[1..][..k] == input[..k + 1];
    }
  }

  /** Replay stops consuming only when recording stopped or the input ran
      out; what it returns is what the live callback had built when it
      processed the same frames, every state before the last frame was
      still active, so the frame that set the flag to false is kept. */
  lemma {:induction false} ReplayStopsAtTrigger(c: Config, s: Capture, input: seq<Frame>, vad: Classifier)
    requires c.rate > 0 && s.active
    ensures var t := Replay(c, s, input, vad);
      var k := |t.frames| - |s.frames|;
      0 <= k <= |input| &&
      t == Live(c, s, input[..k], vad) &&
      (k < |input| ==> !t.active) &&
      (forall j :: 0 <= j < k ==> Live(c, s, input[..j], vad).active)
    decreases |input|
  {
    ReplayFrames(c, s, input, vad);
    if input != [] {
      var s' := Update(c, s, input[0], vad(input[0], c.rate));
      var t := Replay(c, s, input, vad);
      var k := |t.frames| - |s.frames|;
      assert t == Replay(c, s', input[1..], vad);
      if !s'.active {
        assert t == s';
        assert input[..1][1..] == [];
        assert Live(c, s, input[..1], vad) == Live(c, s', [], vad);
        forall j | 0 <= j < k
          ensures Live(c, s, input[..j], vad).active
        {
          assert j == 0 && input[..j] == [];
        }
      } else {
        ReplayStopsAtTrigger(c, s', input[1..], vad);
        assert input[..k][1..] == input[1..][..k - 1];
        assert Live(c, s, input[..k], vad) == Live(c, s', input[1..][..k - 1], vad);
        forall j | 0 <= j < k
          ensures Live(c, s, input[..j], vad).active
        {
          if j > 0 {
            assert input[..j][1..] == input[1..][..j - 1];
            assert Live(c, s, input[..j], vad) == Live(c, s', input[1..][..j - 1], vad);
          }
        }
      }
    }
  }

  /** The duration stop: a recording that starts empty never returns more
      than the frame budget (and always keeps the first frame it sees). */
  lemma {:induction false} ReplayWithinBudget(c: Config, s: Capture, input: seq<Frame>, vad: Classifier)
    requires c.rate > 0
    requires s.active ==> |s.frames| < Max(1, FrameBudget(c.maxDuration, c.rate))
    ensures |Replay(c, s, input, vad).frames| <= Max(|s.frames|, Max(1, FrameBudget(c.maxDuration, c.rate)))
    decreases |input|
  {
    if s.active && input != [] {
      var s' := Update(c, s, input[0], vad(input[0], c.rate));
      DurationReachedIff(|s'.frames|, c.rate, c.maxDuration);
      ReplayWithinBudget(c, s', input[1..], vad);
    }
  }

  lemma RecordingWithinBudget(c: Config, input: seq<Frame>, vad: Classifier)
    requires c.rate > 0
    ensures |Replay(c, Initial(), input, vad).frames| <= Max(1, FrameBudget(c.maxDuration, c.rate))
  {
    ReplayWithinBudget(c, Initial(), input, vad);
  }

  /** Silent frames right at the start of the input: once the counter can
      reach the threshold within them, recording stops inside them. */
  lemma {:induction false} SilentPrefixStops(c: Config, s: Capture, input: seq<Frame>, vad: Classifier, n: nat)
    requires c.rate > 0
    requires 1 <= n <= |input|
    requires forall k :: 0 <= k < n ==> !vad(input[k], c.rate)
    requires s.silence + n >= c.silentFramesToStop
    ensures |Replay(c, s, input, vad).frames| <= |s.frames| + n
    decreases |input|
  {
    if s.active {
      var s' := Update(c, s, input[0], vad(input[0], c.rate));
      if n > 1 {
        SilentPrefixStops(c, s', input[1..], vad, n - 1);
      } else {
        assert !s'.active;
      }
    }
  }

  /** A run of `n >= threshold` silent frames anywhere in the input ends the
      recording at or before the end of that run, whatever follows it. */
  lemma {:induction false} SilentRunStops(c: Config, s: Capture, input: seq<Frame>, vad: Classifier, j: nat, n: nat)
    requires c.rate > 0
    requires 1 <= n && j + n <= |input|
    requires forall k :: j <= k < j + n ==> !vad(input[k], c.rate)
    requires n >= c.silentFramesToStop
    ensures |Replay(c, s, input, vad).frames| <= |s.frames| + j + n
    decreases j
  {
    if j == 0 {
      SilentPrefixStops(c, s, input, vad, n);
    } else if s.active {
      var s' := Update(c, s, input[0], vad(input[0], c.rate));
      SilentRunStops(c, s', input[1..], vad, j - 1, n);
    }
  }

  /** All-silent input: the recording stops on exactly the frame that brings
      the counter to the threshold, provided the duration limit is not
      reached first. */
  lemma {:induction false} SilentInputStopsAtThreshold(c: Config, s: Capture, input: seq<Frame>, vad: Classifier)
    requires c.rate > 0 && s.active && s.silence < c.silentFramesToStop
    requires forall k :: 0 <= k < |input| ==> !vad(input[k], c.rate)
    requires c.silentFramesToStop - s.silence <= |input|
    requires |s.frames| + (c.silentFramesToStop - s.silence) <= FrameBudget(c.maxDuration, c.rate)
    ensures Replay(c, s, input, vad).frames == s.frames + input[..c.silentFramesToStop - s.silence]
    decreases |input|
  {
    var m := c.silentFramesToStop - s.silence;
    var s' := Update(c, s, input[0], vad(input[0], c.rate));
    if m == 1 {
      assert !s'.active;
      assert s'.frames == s.frames + input[..1];
    } else {
      DurationReachedIff(|s'.frames|, c.rate, c.maxDuration);
      assert s'.active;
      SilentInputStopsAtThreshold(c, s', input[1..], vad);
      assert s'.frames + input[1..][..m - 1] == s.frames + input[..m];
    }
  }

  /** With the default settings (16 kHz, one second of silence) and a
      duration limit of at least a second, silent input is recorded for
      exactly 100 frames, which are returned. */
  lemma DefaultsStopAfterOneSecondOfSilence(maxDuration: real, input: seq<Frame>, vad: Classifier)
    requires maxDuration >= 1.0 && |input| >= 100
    requires forall k :: 0 <= k < |input| ==> !vad(input[k], DefaultSampleRate)
    ensures Replay(MakeConfig(DefaultSampleRate, maxDuration, 1.0), Initial(), input, vad).frames == input[..100]
  {
    var c := MakeConfig(DefaultSampleRate, maxDuration, 1.0);
    assert c.silentFramesToStop == 100;
    assert FrameBudget(maxDuration, DefaultSampleRate) >= 100;
    SilentInputStopsAtThreshold(c, Initial(), input, vad);
  }

  /** A threshold of zero or less stops recording on the first frame, even a
      speech frame, because the counter is then always `>=` it. */
  lemma ZeroThresholdStopsAtFirstFrame(c: Config, input: seq<Frame>, vad: Classifier)
    requires c.rate > 0 && c.silentFramesToStop <= 0 && input != []
    ensures Replay(c, Initial(), input, vad).frames == [input[0]]
  {
    var s' := Update(c, Initial(), input[0], vad(input[0], c.rate));
    assert !s'.active;
  }

  /** At 16 kHz any silence limit strictly between -0.01 s and 0.01 s
      truncates to a threshold of zero. */
  lemma ShortSilenceLimitIsZeroThreshold(maxSilenceDuration: real)
    requires -0.01 < maxSilenceDuration < 0.01
    ensures SilentFramesToStop(maxSilenceDuration, DefaultSampleRate) == 0
  {
    var x := maxSilenceDuration * (DefaultSampleRate as real) / (BlockSize as real);
    assert x == 100.0 * maxSilenceDuration;
  }

  /** Input where a silent frame is never followed by another one: with a
      threshold of at least 2 the silence stop never fires, and the
      recording ends only on the duration limit or at the end of the input. */
  lemma {:induction false} NoRepeatedSilenceStopsOnDuration(c: Config, s: Capture, input: seq<Frame>, vad: Classifier)
    requires c.rate > 0 && c.silentFramesToStop >= 2 && s.active
    requires |s.frames| < Max(1, FrameBudget(c.maxDuration, c.rate))
    requires forall k :: 0 <= k < |input| - 1 ==> vad(input[k], c.rate) || vad(input[k + 1], c.rate)
    requires s.silence == 0 || (s.silence == 1 && (input == [] || vad(input[0], c.rate)))
    ensures |Replay(c, s, input, vad).frames|
            == Min(|s.frames| + |input|, Max(1, FrameBudget(c.maxDuration, c.rate)))
    decreases |input|
  {
    if input != [] {
      var s' := Update(c, s, input[0], vad(input[0], c.rate));
      DurationReachedIff(|s'.frames|, c.rate, c.maxDuration);
      if s'.active {
        NoRepeatedSilenceStopsOnDuration(c, s', input[1..], vad);
      }
    }
  }

  // ---------------------------------------------------------------------------
  // The closure state as an object

  /** The state `record_audio_vad` shares with its callbacks, updated in
      place frame by frame. */
  class CaptureState {
    const config: Config
    var currentSilence: nat
    var recordedFrames: seq<Frame>
    var recordingActive: bool

    function View(): Capture
      reads this
    {
      Capture(currentSilence, recordedFrames, recordingActive)
    }

    constructor (config: Config)
      ensures this.config == config && View() == Initial()
    {
      this.config := config;
      currentSilence, recordedFrames, recordingActive := 0, [], true;
    }

    method UpdateRecordingStatus(frame: Frame, isSpeech: bool)
      requires config.rate > 0
      modifies this
      ensures View() == Update(config, old(View()), frame, isSpeech)
      ensures currentSilence == if isSpeech then 0 else old(currentSilence) + 1
      ensures recordedFrames == old(recordedFrames) + [frame]
      ensures recordingActive ==> old(recordingActive)
      ensures !recordingActive <==>
                !old(recordingActive) || currentSilence >= config.silentFramesToStop
                || DurationReached(|recordedFrames|, config.rate, config.maxDuration)
    {
      if !isSpeech {
        currentSilence := currentSilence + 1;
      } else {
        currentSilence := 0;
      }
      if currentSilence >= config.silentFramesToStop {
        recordingActive := false;
      }
      recordedFrames := recordedFrames + [frame];
      if DurationReached(|recordedFrames|, config.rate, config.maxDuration) {
        recordingActive := false;
      }
    }

    method ProcessFrame(frame: Frame, vad: Classifier)
      requires config.rate > 0
      modifies this
      ensures View() == Update(config, old(View()), frame, vad(frame, config.rate))
    {
      var isSpeech := vad(frame, config.rate);
      UpdateRecordingStatus(frame, isSpeech);
    }
  }

  // ---------------------------------------------------------------------------
  // The recorder

  /** Where frames come from: a finite list replayed in order, or a device
      whose stream raises `PortAudioError` with the given text. */
  datatype AudioSource = Frames(frames: seq<Frame>) | PortAudioError(message: string)

  /** An element of the list given to `array_to_pcm_bytes`: a bytes-like
      object, or a value of another type (a `str`, say) named by its type. */
  datatype FrameItem = Binary(bytes: seq<Byte>) | NonBinary(typeName: string)

  function Payload(item: FrameItem): seq<Byte>
  {
    if item.Binary? then item.bytes else []
  }

  function Payloads(items: seq<FrameItem>): (r: seq<seq<Byte>>)
    ensures |r| == |items| && forall i :: 0 <= i < |items| ==> r[i] == Payload(items[i])
  {
    seq(|items|, i requires 0 <= i < |items| => Payload(items[i]))
  }

  /** The index of the first element that is not bytes-like, or the length. */
  function FirstNonBinary(items: seq<FrameItem>): (k: nat)
    ensures k <= |items|
    ensures forall j :: 0 <= j < k ==> items[j].Binary?
    ensures k < |items| ==> items[k].NonBinary?
  {
    if items == [] then 0
    else if items[0].NonBinary? then 0
    else 1 + FirstNonBinary(items[1..])
  }

  /** The exception `BytesIO.write` raises for a value that is not bytes-like. */
  function WriteError(item: FrameItem): Exception
    requires item.NonBinary?
  {
    Exception(TypeError, "a bytes-like object is required, not '" + item.typeName + "'")
  }

  const RecordingErrorPrefix: string := "Error occurred during recording: "

  /** Writing the next bytes-like frame at the end of the buffer extends the
      concatenation of the frames written so far by that frame. */
  lemma WriteNextFrame(items: seq<FrameItem>, i: nat, before: seq<Byte>)
    requires i < |items| && items[i].Binary? && before == Flatten(Payloads(items[..i]))
    ensures Overwrite(before, |before|, items[i].bytes) == Flatten(Payloads(items[..i + 1]))
  {
    OverwriteAtEnd(before, items[i].bytes);
    FlattenAppend(Payloads(items[..i]), items[i].bytes);
    assert Payloads(items[..i + 1]) == Payloads(items[..i]) + [items[i].bytes];
  }

  class Recorder {
    var sampleRate: nat

    constructor ()
      ensures sampleRate == DefaultSampleRate
    {
      sampleRate := DefaultSampleRate;
    }

    /** `array_to_pcm_bytes`: the frames written one after another into a
        fresh buffer, rewound to position 0; the first write that fails
        escapes with its own exception. */
    method ArrayToPcmBytes(items: seq<FrameItem>) returns (r: Result<BytesIO, Exception>)
      ensures r.Success? <==> FirstNonBinary(items) == |items|
      ensures r.Success? ==> fresh(r.value) && r.value.pos == 0
      ensures r.Success? ==> r.value.buffer == Flatten(Payloads(items))
      ensures r.Success? ==> |r.value.buffer| == TotalLength(Payloads(items))
      ensures r.Failure? ==> r.error == WriteError(items[FirstNonBinary(items)])
    {
      var audioBuffer := new BytesIO();
      var i := 0;
      while i < |items|
        invariant 0 <= i <= |items|
        invariant forall j :: 0 <= j < i ==> items[j].Binary?
        invariant audioBuffer.buffer == Flatten(Payloads(items[..i]))
        invariant audioBuffer.pos == |audioBuffer.buffer|
      {
        if items[i].NonBinary? {
          assert FirstNonBinary(items) == i;
          return Failure(WriteError(items[i]));
        }
        WriteNextFrame(items, i, audioBuffer.buffer);
        var _ := audioBuffer.Write(items[i].bytes);
        i := i + 1;
      }
      assert FirstNonBinary(items) == |items|;
      var _ := audioBuffer.Seek(0);
      assert items[..i] == items;
      FlattenLength(Payloads(items));
      return Success(audioBuffer);
    }

    /** `record_audio_vad` over a replayed source: frames are processed in
        order until recording stops or the input is exhausted, and the
        recorded frames are returned; a device error becomes an
        `AssertionError` naming it. */
    method RecordAudioVad(maxDuration: real, maxSilenceDuration: real, vad: Classifier, source: AudioSource)
      returns (r: Result<seq<Frame>, Exception>)
      requires sampleRate > 0
      ensures source.PortAudioError? ==>
                r == Failure(Exception(AssertionError, RecordingErrorPrefix + source.message))
      ensures source.Frames? ==>
                r == Success(Replay(MakeConfig(sampleRate, maxDuration, maxSilenceDuration),
                                    Initial(), source.frames, vad).frames)
    {
      var config := MakeConfig(sampleRate, maxDuration, maxSilenceDuration);
      var state := new CaptureState(config);
      if source.PortAudioError? {
        return Failure(Exception(AssertionError, RecordingErrorPrefix + source.message));
      }
      var input := source.frames;
      var i := 0;
      while i < |input| && state.recordingActive
        invariant 0 <= i <= |input|
        invariant state.config == config
        invariant Replay(config, state.View(), input[i..], vad) == Replay(config, Initial(), input, vad)
      {
        state.ProcessFrame(input[i], vad);
        i := i + 1;
      }
      return Success(state.recordedFrames);
    }
  }
}
