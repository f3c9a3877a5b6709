/** stt-xinghuo.py: the Spark (iat.xf-yun.com v1) dictation client. Every
    upload message carries a header with the status and the application id
    and the `iat` parameters; replies carry their words base64-encoded in
    the payload, and the module-global `final_result` is replaced on status
    1 and appended to on status 2. */
module SttXinghuo {
  import opened Wrappers
  import opened BytesIo
  import opened Base64
  import opened AudioChunks
  import IatProtocol

  // ---------------------------------------------------------------------------
  // Upload

  /** Bytes read per message. */
  const FrameSize: nat := 1280
  const SampleRate: int := 16000
  const RawEncoding: string := "raw"

  datatype ResultParams = ResultParams(encoding: string, compress: string, format: string)

  datatype IatParams = IatParams(domain: string, language: string, accent: string, dwa: string, result: ResultParams)

  const DefaultIatParams: IatParams :=
    IatParams("slm", "zh_cn", "mandarin", "wpgs", ResultParams("utf8", "raw", "plain"))

  /** `Ws_Param`: the application id, the audio file given by its contents,
      and the `iat` parameters. */
  datatype WsParam = WsParam(appId: Option<string>, audioFile: seq<Byte>, iatParams: IatParams)

  function MakeWsParam(appId: Option<string>, audioFile: seq<Byte>): WsParam
  {
    WsParam(appId, audioFile, DefaultIatParams)
  }

  datatype Header = Header(status: int, appId: Option<string>)

  datatype AudioPayload = AudioPayload(audio: Base64Text, sampleRate: int, encoding: string)

  /** An upload message: `header`, `parameter.iat` and `payload.audio`. */
  datatype UploadFrame = UploadFrame(header: Header, iat: IatParams, payload: AudioPayload)

  function Envelope(p: Piece, appId: Option<string>, iatParams: IatParams): UploadFrame
  {
    UploadFrame(Header(p.status, appId), iatParams, AudioPayload(Encode(p.audio), SampleRate, RawEncoding))
  }

  /** The messages the loop sends. The chunking is the shared `Pieces`; the
      framing is stated again here rather than shared with the iat_ws.py
      client because this client's message is a different record (`header`,
      `parameter` and `payload` on every message instead of `common` and
      `business` on the first), so the shape lemmas below speak of its own
      fields. */
  function UploadFrames(data: seq<Byte>, appId: Option<string>, iatParams: IatParams): (fs: seq<UploadFrame>)
    ensures |fs| == |Pieces(data, FrameSize)|
  {
    var ps := Pieces(data, FrameSize);
    seq(|ps|, i requires 0 <= i < |ps| => Envelope(ps[i], appId, iatParams))
  }

  function DecodedAudio(fs: seq<UploadFrame>): (r: seq<seq<Byte>>)
    ensures |r| == |fs| && forall i :: 0 <= i < |fs| ==> r[i] == Decode(fs[i].payload.audio)
  {
    seq(|fs|, i requires 0 <= i < |fs| => Decode(fs[i].payload.audio))
  }

  /** Header status 0 exactly on the first message of a non-empty file, 1 on
      the other chunks, 2 once and last with empty audio; chunks of at most
      1280 bytes; and every message, whatever its status, carries the
      application id and the `iat` parameters. */
  lemma UploadShape(data: seq<Byte>, appId: Option<string>, iatParams: IatParams)
    ensures var fs := UploadFrames(data, appId, iatParams);
      |fs| >= 1 &&
      Decode(fs[|fs| - 1].payload.audio) == [] &&
      (forall i :: 0 <= i < |fs| ==> (fs[i].header.status == StatusLastFrame <==> i == |fs| - 1)) &&
      (forall i :: 0 <= i < |fs| ==> (fs[i].header.status == StatusFirstFrame <==> i == 0 && data != [])) &&
      (forall i :: 0 <= i < |fs| - 1 ==> fs[i].header.status in {StatusFirstFrame, StatusContinueFrame}) &&
      (forall i :: 0 <= i < |fs| - 1 ==> 0 < |Decode(fs[i].payload.audio)| <= FrameSize) &&
      (forall i :: 0 <= i < |fs| ==>
         fs[i].header.appId == appId && fs[i].iat == iatParams &&
         fs[i].payload.sampleRate == SampleRate && fs[i].payload.encoding == RawEncoding) &&
      (data == [] ==> |fs| == 1)
  {
    PiecesShape(data, FrameSize);
  }

  lemma UploadRoundTrip(data: seq<Byte>, appId: Option<string>, iatParams: IatParams)
    ensures Flatten(DecodedAudio(UploadFrames(data, appId, iatParams))) == data
  {
    var ps := Pieces(data, FrameSize);
    assert DecodedAudio(UploadFrames(data, appId, iatParams)) == Audios(ps);
    PiecesRoundTrip(data, FrameSize);
  }

  /** The `run` thread started by `on_open`: read the file 1280 bytes at a
      time and send each chunk with header status 0, then 1, and the empty
      read with status 2, which ends the loop. */
  method OnOpenRun(wsParam: WsParam) returns (sent: seq<UploadFrame>)
    ensures sent == UploadFrames(wsParam.audioFile, wsParam.appId, wsParam.iatParams)
  {
    var frameSize := FrameSize;
    var status := StatusFirstFrame;
    var fp := new BytesIO.OfContents(wsParam.audioFile);
    ghost var data := wsParam.audioFile;
    ghost var cs := Chunks(data, frameSize);
    ghost var fs := UploadFrames(data, wsParam.appId, wsParam.iatParams);
    sent := [];
    while true
      invariant fp.buffer == data
      invariant fp.pos <= |data| && |sent| <= |cs|
      invariant Chunks(data[fp.pos..], frameSize) == cs[|sent|..]
      invariant status == StatusOf(|sent|)
      invariant sent == fs[..|sent|]
      decreases |data| - fp.pos
    {
      ghost var pos := fp.pos;
      var buf := fp.Read(frameSize);
      ReadNextChunk(data, pos, frameSize);
      PieceAt(data, frameSize, |sent|);
      assert buf == [] ==> |sent| == |cs|;
      assert buf != [] ==> cs[|sent|] == buf;
      ghost var next := Envelope(Pieces(data, frameSize)[|sent|], wsParam.appId, wsParam.iatParams);
      assert fs[..|sent| + 1] == sent + [next];
      var audio := Encode(buf);
      if buf == [] {
        status := StatusLastFrame;
      }
      var payload := AudioPayload(audio, SampleRate, RawEncoding);
      if status == StatusFirstFrame {
        sent := sent + [UploadFrame(Header(0, wsParam.appId), wsParam.iatParams, payload)];
        status := StatusContinueFrame;
      } else if status == StatusContinueFrame {
        sent := sent + [UploadFrame(Header(1, wsParam.appId), wsParam.iatParams, payload)];
      } else if status == StatusLastFrame {
        sent := sent + [UploadFrame(Header(2, wsParam.appId), wsParam.iatParams, payload)];
        assert sent == fs;
        break;
      }
    }
  }

  // ---------------------------------------------------------------------------
  // Replies

  /** `header.code` and `header.status`, None when missing. */
  datatype ReplyHeader = ReplyHeader(code: Option<int>, status: Option<int>)

  /** `payload.result.text` after base64 and JSON decoding: the `ws` list of
      `cw` lists, or `Undecodable` when the text does not decode or a key on
      that path is missing. This includes a `ws` entry without `cw`, whose
      `i["cw"]` lookup (stt-xinghuo.py:141) raises `KeyError`; a `cw` entry
      without `w` is kept and fails later, in `CollectWords`. */
  datatype ReplyPayload = Decoded(ws: seq<seq<IatProtocol.CwEntry>>) | Undecodable

  /** A reply: `Unparseable` is text that is not JSON; `payload` is None when
      it is missing or empty (falsy). */
  datatype Reply = Unparseable | Reply(header: Option<ReplyHeader>, payload: Option<ReplyPayload>)

  /** The effect of one `on_message` call: the new `final_result`, whether
      the socket was closed, and whether an exception escaped. */
  datatype Handled = Handled(finalResult: string, closed: bool, raised: bool)

  /** A reply `on_message` reads to the end: it parses, has a header with
      `code` 0 and a `status`, and a payload whose words all decode. */
  predicate Readable(m: Reply)
  {
    m.Reply? && m.header.Some? && m.header.value.code == Some(0) && m.header.value.status.Some?
    && m.payload.Some? && m.payload.value.Decoded? && IatProtocol.JoinWords(m.payload.value.ws).Some?
  }

  function Words(m: Reply): string
    requires Readable(m)
  {
    IatProtocol.JoinWords(m.payload.value.ws).value
  }

  function Status(m: Reply): int
    requires Readable(m)
  {
    m.header.value.status.value
  }

  function HandleMessage(finalResult: string, m: Reply): (h: Handled)
    ensures Readable(m) && Status(m) == StatusContinueFrame ==> h == Handled(Words(m), false, false)
    ensures Readable(m) && Status(m) == StatusLastFrame ==> h == Handled(finalResult + Words(m), true, false)
    ensures !(Readable(m) && Status(m) in {StatusContinueFrame, StatusLastFrame}) ==> h.finalResult == finalResult
    ensures (m.Reply? && m.header.Some? && m.header.value.code.Some? && m.header.value.status.Some?
             && m.header.value.code.value != 0) ==> h == Handled(finalResult, true, false)
    ensures (m.Reply? && m.header.Some? && m.header.value.code == Some(0) && m.header.value.status.Some?
             && m.payload.None?) ==> h == Handled(finalResult, false, false)
    ensures h.raised <==>
              m.Unparseable? || m.header.None? || m.header.value.code.None? || m.header.value.status.None?
              || (m.header.value.code == Some(0) && m.payload.Some?
                  && (m.payload.value.Undecodable? || IatProtocol.JoinWords(m.payload.value.ws).None?))
    ensures h.raised ==> h == Handled(finalResult, false, true)
  {
    match m
    case Unparseable => Handled(finalResult, false, true)
    case Reply(header, payload) =>
      if header.None? || header.value.code.None? || header.value.status.None? then
        Handled(finalResult, false, true)
      else if header.value.code.value != 0 then
        Handled(finalResult, true, false)
      else if payload.None? then
        Handled(finalResult, false, false)
      else if payload.value.Undecodable? then
        Handled(finalResult, false, true)
      else
        match IatProtocol.JoinWords(payload.value.ws)
        case None => Handled(finalResult, false, true)
        case Some(result) =>
          var status := header.value.status.value;
          if status == StatusContinueFrame then Handled(result, false, false)
          else if status == StatusLastFrame then Handled(finalResult + result, true, false)
          else Handled(finalResult, false, false)
  }

  /** `final_result` after a sequence of replies. */
  function FinalAfter(finalResult: string, replies: seq<Reply>): string
    decreases |replies|
  {
    if replies == [] then finalResult
    else FinalAfter(HandleMessage(finalResult, replies[0]).finalResult, replies[1..])
  }

  lemma {:induction false} FinalAfterSplit(finalResult: string, replies: seq<Reply>, i: nat)
    requires i <= |replies|
    ensures FinalAfter(finalResult, replies) == FinalAfter(FinalAfter(finalResult, replies[..i]), replies[i..])
    decreases i
  {
    if i > 0 {
      var next := HandleMessage(finalResult, replies[0]).finalResult;
      FinalAfterSplit(next, replies[1..], i - 1);
      assert replies[1..][..i - 1] == replies[..i][1..];
      assert replies[1..][i - 1..] == replies[i..];
    }
  }

  /** A status-1 reply replaces the transcript: what came before it has no
      effect on the final result. */
  lemma StatusOneForgetsHistory(finalResult: string, replies: seq<Reply>, i: nat)
    requires i < |replies| && Readable(replies[i]) && Status(replies[i]) == StatusContinueFrame
    ensures FinalAfter(finalResult, replies) == FinalAfter(Words(replies[i]), replies[i + 1..])
  {
    FinalAfterSplit(finalResult, replies, i);
    assert replies[i..][1..] == replies[i + 1..];
  }

  /** Replies that are not readable with status 1 or 2 leave the result as
      it is. */
  lemma {:induction false} IgnoredRepliesKeepResult(finalResult: string, replies: seq<Reply>)
    requires forall k :: 0 <= k < |replies| ==>
               !(Readable(replies[k]) && Status(replies[k]) in {StatusContinueFrame, StatusLastFrame})
    ensures FinalAfter(finalResult, replies) == finalResult
    decreases |replies|
  {
    if replies != [] {
      IgnoredRepliesKeepResult(HandleMessage(finalResult, replies[0]).finalResult, replies[1..]);
    }
  }

  /** The inner loop of `on_message` over one `cw` list: the `w` fields
      joined, or `None` at the first entry without one (the `KeyError`). */
  method CollectCw(cw: seq<IatProtocol.CwEntry>) returns (r: Option<string>)
    ensures r == IatProtocol.JoinCw(cw)
  {
    var result := "";
    var j := 0;
    while j < |cw|
      invariant 0 <= j <= |cw|
      invariant IatProtocol.JoinCw(cw[..j]) == Some(result)
    {
      if cw[j].w.None? {
        return None;
      }
      assert IatProtocol.JoinCw([cw[j]]) == Some(cw[j].w.value + "") by {
        assert [cw[j]][1..] == [];
      }
      assert cw[j].w.value + "" == cw[j].w.value;
      IatProtocol.JoinCwConcat(cw[..j], [cw[j]]);
      assert cw[..j + 1] == cw[..j] + [cw[j]];
      result := result + cw[j].w.value;
      j := j + 1;
    }
    assert cw[..j] == cw;
    return Some(result);
  }

  /** The nested loops of `on_message` over `payload.result.text.ws`: the
      words of every `cw` list joined in order, or `None` when an entry has
      no `w`. */
  method CollectWords(textWs: seq<seq<IatProtocol.CwEntry>>) returns (r: Option<string>)
    ensures r == IatProtocol.JoinWords(textWs)
  {
    var result := "";
    var i := 0;
    while i < |textWs|
      invariant 0 <= i <= |textWs|
      invariant IatProtocol.JoinWords(textWs[..i]) == Some(result)
    {
      var cw := textWs[i];
      var joined := CollectCw(cw);
      if joined.None? {
        assert !IatProtocol.HasAllWords(textWs) by {
          assert textWs[i] == cw;
        }
        return None;
      }
      assert IatProtocol.JoinWords([cw]) == Some(joined.value + "") by {
        assert [cw][1..] == [];
      }
      assert joined.value + "" == joined.value;
      IatProtocol.JoinWordsConcat(textWs[..i], [cw]);
      assert textWs[..i + 1] == textWs[..i] + [cw];
      result := result + joined.value;
      i := i + 1;
    }
    assert textWs[..i] == textWs;
    return Some(result);
  }

  /** The module's global state. */
  class Globals {
    var finalResult: string

    constructor ()
      ensures finalResult == ""
    {
      finalResult := "";
    }

    method OnMessage(m: Reply) returns (closed: bool, raised: bool)
      modifies this
      ensures Handled(finalResult, closed, raised) == HandleMessage(old(finalResult), m)
    {
      closed, raised := false, false;
      if m.Unparseable? || m.header.None? || m.header.value.code.None? || m.header.value.status.None? {
        raised := true;
        return;
      }
      var code := m.header.value.code.value;
      var status := m.header.value.status.value;
      if code != 0 {
        closed := true;
      } else {
        var payload := m.payload;
        if payload.Some? {
          if payload.value.Undecodable? {
            raised := true;
            return;
          }
          var words := CollectWords(payload.value.ws);
          if words.None? {
            raised := true;
            return;
          }
          var result := words.value;
          if status == StatusContinueFrame {
            finalResult := result;
          }
          if status == StatusLastFrame {
            finalResult := finalResult + result;
            closed := true;
          }
        }
      }
    }
  }
}
