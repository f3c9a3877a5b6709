/** The iFlytek streaming dictation (IAT v2) messages shared by iat_ws.py and
    iat_ws_python3.py: the upload envelope the client sends and the replies
    it receives. */
module IatProtocol {
  import opened Wrappers
  import opened BytesIo
  import opened Base64
  import opened AudioChunks

  // ---------------------------------------------------------------------------
  // Upload

  /** Bytes read per message. */
  const FrameSize: nat := 8000
  const AudioFormat: string := "audio/L16;rate=16000"
  const RawEncoding: string := "raw"

  /** `{"app_id": APPID}`; the id comes from the environment and may be unset. */
  datatype CommonArgs = CommonArgs(appId: Option<string>)

  datatype BusinessArgs = BusinessArgs(domain: string, language: string, accent: string, vinfo: int, vadEos: int)

  const DefaultBusinessArgs: BusinessArgs := BusinessArgs("iat", "zh_cn", "mandarin", 1, 10000)

  /** The `data` object of an upload message. */
  datatype AudioData = AudioData(status: int, format: string, audio: Base64Text, encoding: string)

  /** An upload message: `common` and `business` are present only on the
      first one. */
  datatype UploadFrame = UploadFrame(common: Option<CommonArgs>, business: Option<BusinessArgs>, data: AudioData)

  function Envelope(p: Piece, common: CommonArgs, business: BusinessArgs): UploadFrame
  {
    var data := AudioData(p.status, AudioFormat, Encode(p.audio), RawEncoding);
    if p.status == StatusFirstFrame then UploadFrame(Some(common), Some(business), data)
    else UploadFrame(None, None, data)
  }

  /** Every message the read loop sends for a stream holding `data`. */
  function UploadFrames(data: seq<Byte>, common: CommonArgs, business: BusinessArgs): (fs: seq<UploadFrame>)
    ensures |fs| == |Pieces(data, FrameSize)|
  {
    var ps := Pieces(data, FrameSize);
    seq(|ps|, i requires 0 <= i < |ps| => Envelope(ps[i], common, business))
  }

  /** The audio of each message, base64-decoded. */
  function DecodedAudio(fs: seq<UploadFrame>): (r: seq<seq<Byte>>)
    ensures |r| == |fs| && forall i :: 0 <= i < |fs| ==> r[i] == Decode(fs[i].data.audio)
  {
    seq(|fs|, i requires 0 <= i < |fs| => Decode(fs[i].data.audio))
  }

  /** Status 2 is sent once, last, with empty audio; status 0 exactly on the
      first message of a non-empty stream, which is the only one carrying
      `common` and `business`; every other message is status 1 with at most
      8000 bytes of audio; an empty stream yields only the status-2 message. */
  lemma UploadShape(data: seq<Byte>, common: CommonArgs, business: BusinessArgs)
    ensures var fs := UploadFrames(data, common, business);
      |fs| >= 1 &&
      fs[|fs| - 1] == UploadFrame(None, None, AudioData(StatusLastFrame, AudioFormat, Encode([]), RawEncoding)) &&
      (forall i :: 0 <= i < |fs| ==> (fs[i].data.status == StatusLastFrame <==> i == |fs| - 1)) &&
      (forall i :: 0 <= i < |fs| ==> (fs[i].data.status == StatusFirstFrame <==> i == 0 && data != [])) &&
      (forall i :: 0 <= i < |fs| - 1 ==> fs[i].data.status in {StatusFirstFrame, StatusContinueFrame}) &&
      (forall i :: 0 <= i < |fs| ==>
         (fs[i].common.Some? <==> i == 0 && data != []) &&
         (fs[i].business.Some? <==> i == 0 && data != [])) &&
      (forall i :: 0 <= i < |fs| - 1 ==> 0 < |Decode(fs[i].data.audio)| <= FrameSize) &&
      (data == [] ==> |fs| == 1)
  {
    PiecesShape(data, FrameSize);
  }

  /** Decoding the audio of the messages and concatenating it in order gives
      back the stream. */
  lemma UploadRoundTrip(data: seq<Byte>, common: CommonArgs, business: BusinessArgs)
    ensures Flatten(DecodedAudio(UploadFrames(data, common, business))) == data
  {
    var ps := Pieces(data, FrameSize);
    assert DecodedAudio(UploadFrames(data, common, business)) == Audios(ps);
    PiecesRoundTrip(data, FrameSize);
  }

  // ---------------------------------------------------------------------------
  // Replies

  /** An element of a `cw` list; `w` is None when the key is missing. */
  datatype CwEntry = CwEntry(w: Option<string>)

  /** The `data` object of a reply: its `status`, if present, and
      `result.ws`, the list of `cw` lists (a missing `result`, `ws` or `cw`
      reads as an empty list, as the handlers' `.get` defaults make it). */
  datatype ReplyData = ReplyData(status: Option<int>, ws: seq<seq<CwEntry>>)

  /** A reply: `Malformed` stands for text that is not a JSON object;
      otherwise each field is None when its key is missing. */
  datatype Reply =
    | Malformed
    | Reply(code: Option<int>, sid: Option<string>, message: Option<string>, data: Option<ReplyData>)

  predicate HasAllWords(cws: seq<seq<CwEntry>>)
  {
    forall i, j :: 0 <= i < |cws| && 0 <= j < |cws[i]| ==> cws[i][j].w.Some?
  }

  /** The words of one `cw` list joined in order. */
  function JoinCw(cw: seq<CwEntry>): (r: Option<string>)
    ensures r.Some? <==> forall j :: 0 <= j < |cw| ==> cw[j].w.Some?
  {
    if cw == [] then Some("")
    else if cw[0].w.None? then None
    else match JoinCw(cw[1..])
      case None => None
      case Some(rest) => Some(cw[0].w.value + rest)
  }

  /** `''.join(cw['w'] for ws in ... for cw in ws.get('cw', []))`: every word
      in order, or None when some entry has no `w` (a `KeyError`). */
  function JoinWords(cws: seq<seq<CwEntry>>): (r: Option<string>)
    ensures r.Some? <==> HasAllWords(cws)
  {
    if cws == [] then Some("")
    else match JoinCw(cws[0])
      case None => None
      case Some(first) =>
        match JoinWords(cws[1..])
        case None => None
        case Some(rest) => Some(first + rest)
  }

  /** The `ws` list of a reply, empty when `data` is missing. */
  function WordLists(data: Option<ReplyData>): seq<seq<CwEntry>>
  {
    if data.Some? then data.value.ws else []
  }

  lemma {:induction false} JoinCwConcat(a: seq<CwEntry>, b: seq<CwEntry>)
    requires JoinCw(a).Some? && JoinCw(b).Some?
    ensures JoinCw(a + b) == Some(JoinCw(a).value + JoinCw(b).value)
  {
    if a != [] {
      assert (a + b)[0] == a[0] && (a + b)[1..] == a[1..] + b;
      JoinCwConcat(a[1..], b);
      assert JoinCw(a).value == a[0].w.value + JoinCw(a[1..]).value;
      assert JoinCw(a + b) == Some(a[0].w.value + (JoinCw(a[1..]).value + JoinCw(b).value));
      assert a[0].w.value + (JoinCw(a[1..]).value + JoinCw(b).value)
          == (a[0].w.value + JoinCw(a[1..]).value) + JoinCw(b).value;
    } else {
      assert a + b == b;
      assert JoinCw(a).value + JoinCw(b).value == JoinCw(b).value;
    }
  }

  /** Joining is in order: the words of two lists of `cw` lists are the words
      of the first followed by those of the second. */
  lemma {:induction false} JoinWordsConcat(a: seq<seq<CwEntry>>, b: seq<seq<CwEntry>>)
    requires JoinWords(a).Some? && JoinWords(b).Some?
    ensures JoinWords(a + b) == Some(JoinWords(a).value + JoinWords(b).value)
  {
    if a != [] {
      assert (a + b)[0] == a[0] && (a + b)[1..] == a[1..] + b;
      JoinWordsConcat(a[1..], b);
      assert JoinWords(a).value == JoinCw(a[0]).value + JoinWords(a[1..]).value;
      assert JoinWords(a + b) == Some(JoinCw(a[0]).value + (JoinWords(a[1..]).value + JoinWords(b).value));
      assert JoinCw(a[0]).value + (JoinWords(a[1..]).value + JoinWords(b).value)
          == (JoinCw(a[0]).value + JoinWords(a[1..]).value) + JoinWords(b).value;
    } else {
      assert a + b == b;
      assert JoinWords(a).value + JoinWords(b).value == JoinWords(b).value;
    }
  }
}
