/** The three-state upload shared by the websocket speech clients: the audio
    is read in fixed-size chunks, the first chunk is tagged 0, later ones 1,
    and the empty read that ends the stream produces one last message
    tagged 2. Base64, used for the audio field of every message, is kept
    abstract. */
module Base64 {
  import opened BytesIo

  /** The base64 text of a byte string. Only its decoding matters to the
      model, so the text is represented by the bytes it decodes to. */
  datatype Base64Text = Base64Of(decoded: seq<Byte>)

  function Encode(bytes: seq<Byte>): Base64Text
  {
    Base64Of(bytes)
  }

  function Decode(text: Base64Text): seq<Byte>
  {
    text.decoded
  }

  lemma DecodeEncode(bytes: seq<Byte>)
    ensures Decode(Encode(bytes)) == bytes
  {
  }

  lemma EncodeInjective(a: seq<Byte>, b: seq<Byte>)
    ensures Encode(a) == Encode(b) ==> a == b
  {
    DecodeEncode(a);
    DecodeEncode(b);
  }
}

module AudioChunks {
  import opened Wrappers
  import opened BytesIo

  const StatusFirstFrame: int := 0
  const StatusContinueFrame: int := 1
  const StatusLastFrame: int := 2

  /** The successive results of `read(size)` from position 0 until the
      first empty read (which is not included). */
  function Chunks(data: seq<Byte>, size: nat): (cs: seq<seq<Byte>>)
    requires size > 0
    decreases |data|
  {
    if data == [] then []
    else [data[..Min(size, |data|)]] + Chunks(data[Min(size, |data|)..], size)
  }

  lemma {:induction false} ChunksSizes(data: seq<Byte>, size: nat)
    requires size > 0
    ensures var cs := Chunks(data, size);
      (forall i :: 0 <= i < |cs| ==> 0 < |cs[i]| <= size) &&
      (forall i :: 0 <= i < |cs| - 1 ==> |cs[i]| == size) &&
      (cs == [] <==> data == [])
    decreases |data|
  {
    if data != [] {
      ChunksSizes(data[Min(size, |data|)..], size);
      var cs := Chunks(data, size);
      var rest := Chunks(data[Min(size, |data|)..], size);
      assert cs == [data[..Min(size, |data|)]] + rest;
      if |data| <= size {
        assert rest == [];
      }
    }
  }

  lemma {:induction false} ChunksFlatten(data: seq<Byte>, size: nat)
    requires size > 0
    ensures Flatten(Chunks(data, size)) == data
    decreases |data|
  {
    if data != [] {
      var k := Min(size, |data|);
      ChunksFlatten(data[k..], size);
      assert ([data[..k]] + Chunks(data[k..], size))[1..] == Chunks(data[k..], size);
      assert data[..k] + data[k..] == data;
    }
  }

  /** One step of the read loop: reading at `pos` gives the next chunk, and
      the read is empty exactly when the stream is exhausted. */
  lemma ReadNextChunk(data: seq<Byte>, pos: nat, size: nat)
    requires size > 0 && pos <= |data|
    ensures var c := ReadAt(data, pos, size);
      (c == [] <==> pos == |data|) &&
      (c != [] ==> pos + |c| <= |data| &&
                   Chunks(data[pos..], size) == [c] + Chunks(data[pos + |c|..], size))
  {
    var c := ReadAt(data, pos, size);
    if pos < |data| {
      assert data[pos..][..Min(size, |data| - pos)] == c;
      assert data[pos..][Min(size, |data| - pos)..] == data[pos + |c|..];
    }
  }

  /** What one message of the upload carries: its status and raw audio. */
  datatype Piece = Piece(status: int, audio: seq<Byte>)

  function StatusOf(i: nat): int
  {
    if i == 0 then StatusFirstFrame else StatusContinueFrame
  }

  /** The messages the read loop sends, before their envelope: one per
      non-empty chunk, then the final empty one. */
  function Pieces(data: seq<Byte>, size: nat): seq<Piece>
    requires size > 0
  {
    var cs := Chunks(data, size);
    seq(|cs|, i requires 0 <= i < |cs| => Piece(StatusOf(i), cs[i])) + [Piece(StatusLastFrame, [])]
  }

  /** The message at position `k` of the upload. */
  lemma PieceAt(data: seq<Byte>, size: nat, k: nat)
    requires size > 0 && k <= |Chunks(data, size)|
    ensures |Pieces(data, size)| == |Chunks(data, size)| + 1
    ensures Pieces(data, size)[k] ==
              if k < |Chunks(data, size)| then Piece(StatusOf(k), Chunks(data, size)[k]) else Piece(StatusLastFrame, [])
  {
  }

  function Audios(ps: seq<Piece>): (r: seq<seq<Byte>>)
    ensures |r| == |ps| && forall i :: 0 <= i < |ps| ==> r[i] == ps[i].audio
  {
    seq(|ps|, i requires 0 <= i < |ps| => ps[i].audio)
  }

  /** The statuses: 0 on the first message exactly when the stream is not
      empty, 1 on every other chunk, and 2 once, on the last message, whose
      audio is empty; every chunk is non-empty and at most `size` bytes. */
  lemma PiecesShape(data: seq<Byte>, size: nat)
    requires size > 0
    ensures var ps := Pieces(data, size);
      |ps| >= 1 && ps[|ps| - 1] == Piece(StatusLastFrame, []) &&
      (forall i :: 0 <= i < |ps| ==> (ps[i].status == StatusLastFrame <==> i == |ps| - 1)) &&
      (forall i :: 0 <= i < |ps| ==> (ps[i].status == StatusFirstFrame <==> i == 0 && data != [])) &&
      (forall i :: 0 <= i < |ps| - 1 ==> 0 < |ps[i].audio| <= size) &&
      (data == [] <==> ps == [Piece(StatusLastFrame, [])])
  {
    ChunksSizes(data, size);
  }

  /** The audio of the messages, concatenated in order, is the stream. */
  lemma PiecesRoundTrip(data: seq<Byte>, size: nat)
    requires size > 0
    ensures Flatten(Audios(Pieces(data, size))) == data
  {
    var cs := Chunks(data, size);
    var ps := Pieces(data, size);
    assert Audios(ps) == cs + [[]];
    FlattenAppend(cs, []);
    ChunksFlatten(data, size);
  }
}
