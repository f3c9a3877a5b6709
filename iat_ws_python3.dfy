/** iat_ws_python3.py: the stand-alone IAT v2 client, which uploads an audio
    file and accumulates the recognised words in the module-global
    `final_result`. */
module IatWsPython3 {
  import opened Wrappers
  import opened BytesIo
  import opened Base64
  import opened AudioChunks
  import opened IatProtocol
  import IatWs

  /** `Ws_Param`: the application id and the audio file, given by its
      contents (the file system is not modelled). */
  datatype WsParam = WsParam(appId: Option<string>, audioFile: seq<Byte>)

  /** `message.get('data', {}).get('status')`. */
  function ReplyStatus(m: Reply): Option<int>
    requires m.Reply?
  {
    if m.data.Some? then m.data.value.status else None
  }

  /** A reply whose words `on_message` appends: it parses, has `code` 0 and a
      `sid`, every `cw` entry has a `w`, and its status is 0, 1 or 2. */
  predicate Accepted(m: Reply)
  {
    m.Reply? && m.code == Some(0) && m.sid.Some? && HasAllWords(WordLists(m.data))
    && ReplyStatus(m).Some? && ReplyStatus(m).value in {StatusFirstFrame, StatusContinueFrame, StatusLastFrame}
  }

  /** `final_result` after one `on_message` call. */
  function HandleMessage(finalResult: string, m: Reply): (r: string)
    ensures Accepted(m) ==> r == finalResult + JoinWords(WordLists(m.data)).value
    ensures !Accepted(m) ==> r == finalResult
  {
    match m
    case Malformed => finalResult
    case Reply(code, sid, message, data) =>
      if code.None? || sid.None? then finalResult
      else if code.value != 0 then finalResult
      else
        match JoinWords(WordLists(data))
        case None => finalResult
        case Some(result) =>
          var status := ReplyStatus(m);
          if status == Some(StatusFirstFrame) || status == Some(StatusContinueFrame) then finalResult + result
          else if status == Some(StatusLastFrame) then finalResult + result
          else finalResult
  }

  function FinalAfter(finalResult: string, replies: seq<Reply>): string
    decreases |replies|
  {
    if replies == [] then finalResult
    else FinalAfter(HandleMessage(finalResult, replies[0]), replies[1..])
  }

  function Transcript(replies: seq<Reply>): string
    decreases |replies|
  {
    if replies == [] then ""
    else (if Accepted(replies[0]) then JoinWords(WordLists(replies[0].data)).value else "")
         + Transcript(replies[1..])
  }

  /** Handling replies one by one appends exactly the words of the accepted
      ones, in order. */
  lemma {:induction false} FinalAfterIsTranscript(finalResult: string, replies: seq<Reply>)
    ensures FinalAfter(finalResult, replies) == finalResult + Transcript(replies)
    decreases |replies|
  {
    if replies != [] {
      var m, rest := replies[0], replies[1..];
      var next := HandleMessage(finalResult, m);
      var w := if Accepted(m) then JoinWords(WordLists(m.data)).value else "";
      assert next == finalResult + w;
      assert FinalAfter(finalResult, replies) == FinalAfter(next, rest);
      assert Transcript(replies) == w + Transcript(rest);
      FinalAfterIsTranscript(next, rest);
      assert (finalResult + w) + Transcript(rest) == finalResult + (w + Transcript(rest));
    }
  }

  /** The two clients differ on a successful reply whose status is not 0, 1
      or 2: iat_ws.py appends its words, this one ignores them; on every
      other reply they agree. */
  lemma StatusOutsideRangeOnlyHere(finalResult: string, m: Reply)
    ensures IatWs.Accepted(m) && !Accepted(m) ==>
              ReplyStatus(m).value !in {StatusFirstFrame, StatusContinueFrame, StatusLastFrame}
    ensures Accepted(m) ==> IatWs.Accepted(m)
    ensures Accepted(m) == IatWs.Accepted(m) ==>
              HandleMessage(finalResult, m) == IatWs.HandleMessage(finalResult, m).finalResult
  {
  }

  /** The module's global state. */
  class Globals {
    var finalResult: string

    constructor ()
      ensures finalResult == ""
    {
      finalResult := "";
    }

    method OnMessage(m: Reply)
      modifies this
      ensures finalResult == HandleMessage(old(finalResult), m)
    {
      match m
      case Malformed =>
      case Reply(code, sid, message, data) =>
        if code.Some? && sid.Some? && code.value == 0 {
          var result := JoinWords(WordLists(data));
          if result.Some? {
            var status := ReplyStatus(m);
            if status == Some(StatusFirstFrame) || status == Some(StatusContinueFrame) {
              finalResult := finalResult + result.value;
            } else if status == Some(StatusLastFrame) {
              finalResult := finalResult + result.value;
            }
          }
        }
    }
  }

  /** The `run` thread started by `on_open`: open the file, send one
      message per read of at most 8000 bytes, tagged 0 for the first, 1 for
      the next ones and 2 for the empty read that ends the loop. */
  method OnOpenRun(wsParam: WsParam) returns (sent: seq<UploadFrame>)
    ensures sent == UploadFrames(wsParam.audioFile, CommonArgs(wsParam.appId), DefaultBusinessArgs)
  {
    var commonArgs := CommonArgs(wsParam.appId);
    var businessArgs := DefaultBusinessArgs;
    var frameSize := FrameSize;
    var status := StatusFirstFrame;
    var fp := new BytesIO.OfContents(wsParam.audioFile);
    ghost var data := wsParam.audioFile;
    ghost var cs := Chunks(data, frameSize);
    ghost var fs := UploadFrames(data, commonArgs, businessArgs);
    sent := [];
    while true
      invariant fp.buffer == data
      invariant fp.pos <= |data| && |sent| <= |cs|
      invariant Chunks(data[fp.pos..], frameSize) == cs[|sent|..]
      invariant status == StatusOf(|sent|)
      invariant sent == fs[..|sent|]
      decreases |data| - fp.pos
    {
      ghost var pos := fp.pos;
      var buf := fp.Read(frameSize);
      ReadNextChunk(data, pos, frameSize);
      PieceAt(data, frameSize, |sent|);
      assert buf == [] ==> |sent| == |cs|;
      assert buf != [] ==> cs[|sent|] == buf;
      ghost var next := Envelope(Pieces(data, frameSize)[|sent|], commonArgs, businessArgs);
      assert fs[..|sent| + 1] == sent + [next];
      if buf == [] {
        status := StatusLastFrame;
      }
      if status == StatusFirstFrame {
        var d := UploadFrame(Some(commonArgs), Some(businessArgs), AudioData(0, AudioFormat, Encode(buf), RawEncoding));
        sent := sent + [d];
        status := StatusContinueFrame;
      } else if status == StatusContinueFrame {
        var d := UploadFrame(None, None, AudioData(1, AudioFormat, Encode(buf), RawEncoding));
        sent := sent + [d];
      } else if status == StatusLastFrame {
        var d := UploadFrame(None, None, AudioData(2, AudioFormat, Encode(buf), RawEncoding));
        sent := sent + [d];
        assert sent == fs;
        break;
      }
    }
  }
}
