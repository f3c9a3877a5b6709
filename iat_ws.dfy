/** iat_ws.py: `XH_SpeechRecognizer`, which uploads a recorded in-memory PCM
    stream to the IAT v2 service and accumulates the recognised words in its
    `final_result` attribute. */
module IatWs {
  import opened Wrappers
  import opened BytesIo
  import opened Base64
  import opened AudioChunks
  import opened IatProtocol
  import VoiceRecorder

  /** `Ws_Param`: the stream to upload and the arguments of the first message. */
  class WsParam {
    const audioStream: BytesIO
    const commonArgs: CommonArgs
    const businessArgs: BusinessArgs

    constructor (audioStream: BytesIO, appId: Option<string>)
      ensures this.audioStream == audioStream
      ensures commonArgs == CommonArgs(appId) && businessArgs == DefaultBusinessArgs
    {
      this.audioStream := audioStream;
      commonArgs := CommonArgs(appId);
      businessArgs := DefaultBusinessArgs;
    }
  }

  /** The outcome of one `on_message` call: the new `final_result` and the
      value returned (None when the handler caught an exception). */
  datatype Handled = Handled(finalResult: string, returned: Option<string>)

  /** A reply whose words `on_message` appends: it parses, has `code` 0 and a
      `sid`, every `cw` entry has a `w`, and it has `data.status`, whatever
      its value. */
  predicate Accepted(m: Reply)
  {
    m.Reply? && m.code == Some(0) && m.sid.Some? && HasAllWords(WordLists(m.data))
    && m.data.Some? && m.data.value.status.Some?
  }

  function HandleMessage(finalResult: string, m: Reply): (h: Handled)
    ensures h.returned.Some? ==> h.returned.value == h.finalResult
    ensures Accepted(m) ==> h.finalResult == finalResult + JoinWords(WordLists(m.data)).value
    ensures !Accepted(m) ==> h.finalResult == finalResult
    ensures m.Malformed? ==> h.returned.None?
    ensures m.Reply? && m.code.Some? && m.code.value != 0 && m.sid.Some? ==>
              (h.returned.Some? <==> m.message.Some?)
  {
    match m
    case Malformed => Handled(finalResult, None)
    case Reply(code, sid, message, data) =>
      if code.None? || sid.None? then Handled(finalResult, None)
      else if code.value != 0 then
        if message.None? then Handled(finalResult, None) else Handled(finalResult, Some(finalResult))
      else
        match JoinWords(WordLists(data))
        case None => Handled(finalResult, None)
        case Some(result) =>
          if data.None? || data.value.status.None? then Handled(finalResult, None)
          else Handled(finalResult + result, Some(finalResult + result))
  }

  /** `final_result` after a sequence of replies. */
  function FinalAfter(finalResult: string, replies: seq<Reply>): string
    decreases |replies|
  {
    if replies == [] then finalResult
    else FinalAfter(HandleMessage(finalResult, replies[0]).finalResult, replies[1..])
  }

  /** The words of the accepted replies, in order: what the recogniser is
      meant to transcribe. */
  function Transcript(replies: seq<Reply>): string
    decreases |replies|
  {
    if replies == [] then ""
    else (if Accepted(replies[0]) then JoinWords(WordLists(replies[0].data)).value else "")
         + Transcript(replies[1..])
  }

  /** Handling replies one by one appends exactly the transcript of the
      accepted ones; error replies and malformed ones contribute nothing. */
  lemma {:induction false} FinalAfterIsTranscript(finalResult: string, replies: seq<Reply>)
    ensures FinalAfter(finalResult, replies) == finalResult + Transcript(replies)
    decreases |replies|
  {
    if replies != [] {
      var next := HandleMessage(finalResult, replies[0]).finalResult;
      FinalAfterIsTranscript(next, replies[1..]);
      var w := if Accepted(replies[0]) then JoinWords(WordLists(replies[0].data)).value else "";
      assert next == finalResult + w;
      assert (finalResult + w) + Transcript(replies[1..]) == finalResult + (w + Transcript(replies[1..]));
    }
  }

  class SpeechRecognizer {
    var finalResult: string
    var audioStream: BytesIO?

    constructor ()
      ensures finalResult == "" && audioStream == null
    {
      finalResult := "";
      audioStream := null;
    }

    method OnMessage(m: Reply) returns (r: Option<string>)
      modifies this
      ensures Handled(finalResult, r) == HandleMessage(old(finalResult), m)
      ensures audioStream == old(audioStream)
    {
      match m
      case Malformed =>
        return None;
      case Reply(code, sid, message, data) =>
        if code.None? || sid.None? {
          return None;
        }
        if code.value != 0 {
          if message.None? {
            return None;
          }
        } else {
          var result := JoinWords(WordLists(data));
          if result.None? || data.None? || data.value.status.None? {
            return None;
          }
          // both the status < 2 branch and the last-frame branch append
          finalResult := finalResult + result.value;
        }
        return Some(finalResult);
    }

    /** The `run` thread started by `on_open`: rewind the stream, then send
        one message per read of at most 8000 bytes, tagged 0 for the first,
        1 for the next ones and 2 for the empty read that ends the loop. */
    method OnOpenRun(wsParam: WsParam) returns (sent: seq<UploadFrame>)
      modifies wsParam.audioStream
      ensures wsParam.audioStream.buffer == old(wsParam.audioStream.buffer)
      ensures sent == UploadFrames(wsParam.audioStream.buffer, wsParam.commonArgs, wsParam.businessArgs)
    {
      var frameSize := FrameSize;
      var status := StatusFirstFrame;
      var stream := wsParam.audioStream;
      var _ := stream.Seek(0);
      ghost var data := stream.buffer;
      ghost var cs := Chunks(data, frameSize);
      ghost var fs := UploadFrames(data, wsParam.commonArgs, wsParam.businessArgs);
      sent := [];
      while true
        invariant stream == wsParam.audioStream && stream.buffer == data
        invariant stream.pos <= |data| && |sent| <= |cs|
        invariant Chunks(data[stream.pos..], frameSize) == cs[|sent|..]
        invariant status == StatusOf(|sent|)
        invariant sent == fs[..|sent|]
        decreases |data| - stream.pos
      {
        ghost var pos := stream.pos;
        var buf := stream.Read(frameSize);
        ReadNextChunk(data, pos, frameSize);
        PieceAt(data, frameSize, |sent|);
        assert buf == [] ==> |sent| == |cs|;
        assert buf != [] ==> cs[|sent|] == buf;
        ghost var next := Envelope(Pieces(data, frameSize)[|sent|], wsParam.commonArgs, wsParam.businessArgs);
        assert fs[..|sent| + 1] == sent + [next];
        if buf == [] {
          status := StatusLastFrame;
        }
        var d := AudioData(status, AudioFormat, Encode(buf), RawEncoding);
        if status == StatusFirstFrame {
          sent := sent + [UploadFrame(Some(wsParam.commonArgs), Some(wsParam.businessArgs), d)];
          status := StatusContinueFrame;
        } else if status == StatusContinueFrame {
          sent := sent + [UploadFrame(None, None, d)];
        } else if status == StatusLastFrame {
          sent := sent + [UploadFrame(None, None, d)];
          assert sent == fs;
          break;
        }
      }
    }

    /** `run_recognition`: record with the default limits, turn the frames
        into a PCM stream and upload it. A recording error is caught and
        nothing is sent. */
    method RunRecognition(vad: VoiceRecorder.Classifier, source: VoiceRecorder.AudioSource, appId: Option<string>)
      returns (sent: Option<seq<UploadFrame>>)
      modifies this
      ensures source.PortAudioError? ==> sent.None?
      ensures source.Frames? ==> sent.Some?
      ensures source.Frames? ==>
                Flatten(DecodedAudio(sent.value))
                == Flatten(VoiceRecorder.Replay(VoiceRecorder.MakeConfig(VoiceRecorder.DefaultSampleRate, 60.0, 1.0),
                                                VoiceRecorder.Initial(), source.frames, vad).frames)
    {
      var recorder := new VoiceRecorder.Recorder();
      var recorded := recorder.RecordAudioVad(60.0, 1.0, vad, source);
      if recorded.Failure? {
        return None;
      }
      var items := seq(|recorded.value|, i requires 0 <= i < |recorded.value| => VoiceRecorder.Binary(recorded.value[i]));
      assert VoiceRecorder.Payloads(items) == recorded.value;
      var pcm := recorder.ArrayToPcmBytes(items);
      if pcm.Failure? {
        assert false;
        return None;
      }
      audioStream := pcm.value;
      var wsParam := new WsParam(pcm.value, appId);
      var frames := OnOpenRun(wsParam);
      UploadRoundTrip(wsParam.audioStream.buffer, wsParam.commonArgs, wsParam.businessArgs);
      return Some(frames);
    }
  }
}
