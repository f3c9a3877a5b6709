/** Python's in-memory binary stream `io.BytesIO` (and, through `OfContents`,
    a binary file opened for reading): a byte buffer and a stream position. */
module BytesIo {
  import opened Wrappers

  newtype Byte = x: int | 0 <= x < 256

  /** The in-order concatenation of a list of byte strings. */
  function Flatten(chunks: seq<seq<Byte>>): seq<Byte>
  {
    if chunks == [] then [] else chunks[0] + Flatten(chunks[1..])
  }

  /** The sum of the lengths of a list of byte strings. */
  function TotalLength(chunks: seq<seq<Byte>>): nat
  {
    if chunks == [] then 0 else |chunks[0]| + TotalLength(chunks[1..])
  }

  lemma {:induction false} FlattenLength(chunks: seq<seq<Byte>>)
    ensures |Flatten(chunks)| == TotalLength(chunks)
  {
    if chunks != [] {
      FlattenLength(chunks[1..]);
    }
  }

  lemma {:induction false} FlattenAppend(chunks: seq<seq<Byte>>, c: seq<Byte>)
    ensures Flatten(chunks + [c]) == Flatten(chunks) + c
  {
    if chunks == [] {
      assert chunks + [c] == [c];
    } else {
      assert (chunks + [c])[1..] == chunks[1..] + [c];
      FlattenAppend(chunks[1..], c);
    }
  }

  function Zeros(n: nat): (r: seq<Byte>)
    ensures |r| == n && forall i :: 0 <= i < n ==> r[i] == 0
  {
    if n == 0 then [] else Zeros(n - 1) + [0]
  }

  /** The buffer after `write(data)` at position `pos`: an empty write
      leaves the buffer alone, wherever the position is; otherwise the bytes
      from `pos` on are overwritten, the buffer grows when the write runs past
      its end, and a gap between the old end and `pos` is filled with zero
      bytes. */
  function Overwrite(buffer: seq<Byte>, pos: nat, data: seq<Byte>): (r: seq<Byte>)
    ensures data == [] ==> r == buffer
    ensures data != [] ==> |r| == Max(|buffer|, pos + |data|) && r[pos..pos + |data|] == data
    ensures data != [] ==>
              forall i :: 0 <= i < |r| && (i < pos || pos + |data| <= i) ==>
                r[i] == if i < |buffer| then buffer[i] else 0
  {
    if data == [] then buffer
    else if pos <= |buffer| then
      buffer[..pos] + data + (if pos + |data| < |buffer| then buffer[pos + |data|..] else [])
    else
      buffer + Zeros(pos - |buffer|) + data
  }

  /** Writing at the end of the buffer appends. */
  lemma OverwriteAtEnd(buffer: seq<Byte>, data: seq<Byte>)
    ensures Overwrite(buffer, |buffer|, data) == buffer + data
  {
  }

  /** What `read(size)` returns at position `pos`: at most `size` bytes from
      `pos` on, and nothing at or past the end of the buffer. */
  function ReadAt(buffer: seq<Byte>, pos: nat, size: nat): (r: seq<Byte>)
    ensures |r| == if pos < |buffer| then Min(size, |buffer| - pos) else 0
    ensures pos < |buffer| ==> r == buffer[pos..pos + |r|]
  {
    if pos < |buffer| then buffer[pos..pos + Min(size, |buffer| - pos)] else []
  }

  class BytesIO {
    var buffer: seq<Byte>
    var pos: nat

    /** `io.BytesIO()`: an empty buffer at position 0. */
    constructor ()
      ensures buffer == [] && pos == 0
    {
      buffer, pos := [], 0;
    }

    /** A stream over given contents at position 0: `io.BytesIO(contents)`,
        or a file holding `contents` opened with mode "rb". */
    constructor OfContents(contents: seq<Byte>)
      ensures buffer == contents && pos == 0
    {
      buffer, pos := contents, 0;
    }

    method Write(data: seq<Byte>) returns (written: nat)
      modifies this
      ensures buffer == Overwrite(old(buffer), old(pos), data)
      ensures pos == old(pos) + |data| && written == |data|
    {
      buffer := Overwrite(buffer, pos, data);
      pos := pos + |data|;
      written := |data|;
    }

    method Seek(offset: nat) returns (newPos: nat)
      modifies this
      ensures buffer == old(buffer) && pos == offset && newPos == offset
    {
      pos := offset;
      newPos := offset;
    }

    method Read(size: nat) returns (chunk: seq<Byte>)
      modifies this
      ensures buffer == old(buffer)
      ensures chunk == ReadAt(old(buffer), old(pos), size)
      ensures pos == old(pos) + |chunk|
    {
      chunk := ReadAt(buffer, pos, size);
      pos := pos + |chunk|;
    }

    /** `getvalue()`: the whole buffer, whatever the position. */
    function GetValue(): seq<Byte>
      reads this
    {
      buffer
    }
  }
}
