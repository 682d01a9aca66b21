/** An open file with a cursor: what os.File and io.ReadFull do, without I/O errors. */
module ByteFile {
  import opened Base

  type Byte = b: int | 0 <= b < 256

  function Min(a: int, b: int): (m: int) {
    if a <= b then a else b
  }

  /** The bytes a read of n at position pos delivers. */
  function Slice(data: seq<Byte>, pos: nat, n: nat): (r: seq<Byte>) {
    if pos >= |data| then [] else data[pos..Min(pos + n, |data|)]
  }

  /** Where Seek goes; None for an unknown whence or a negative position. */
  function SeekTarget(size: nat, pos: nat, offset: int, whence: int): (r: Option<nat>) {
    var origin := if whence == 0 then 0 else if whence == 1 then pos else size;
    if whence < 0 || whence > 2 || origin + offset < 0 then None else Some(origin + offset)
  }

  /** What the file system answers to any other whence, such as seeking data or holes, by size, offset and whence. */
  type Sparse = (nat, int, int) -> Option<nat>

  predicate KnownWhence(whence: int) {
    0 <= whence <= 2
  }

  /** Where a file's Seek goes: a whence it does not know itself is handed to the file system. */
  function FileTarget(sparse: Sparse, size: nat, pos: nat, offset: int, whence: int): (r: Option<nat>) {
    if KnownWhence(whence) then SeekTarget(size, pos, offset, whence) else sparse(size, offset, whence)
  }

  class File {
    const data: seq<Byte>
    const sparse: Sparse
    var pos: nat

    constructor (data: seq<Byte>, sparse: Sparse)
      ensures this.data == data && this.sparse == sparse && pos == 0
    {
      this.data, this.sparse := data, sparse;
      pos := 0;
    }

    /** os.File.Read into a buffer of n bytes: an empty buffer reads nothing, and the end is reported as EOF. */
    method Read(n: nat) returns (chunk: seq<Byte>, eof: bool)
      modifies this
      ensures chunk == Slice(data, old(pos), n)
      ensures eof <==> n > 0 && old(pos) >= |data|
      ensures pos == old(pos) + |chunk|
    {
      chunk := Slice(data, pos, n);
      eof := n > 0 && pos >= |data|;
      pos := pos + |chunk|;
    }

    method Seek(offset: int, whence: int) returns (r: Option<nat>)
      modifies this
      ensures r == FileTarget(sparse, |data|, old(pos), offset, whence)
      ensures pos == if r.Some? then r.value else old(pos)
    {
      r := FileTarget(sparse, |data|, pos, offset, whence);
      if r.Some? { pos := r.value; }
    }

    /** io.ReadFull: reads until the buffer is full; None when the file ends first. */
    method ReadFull(n: nat) returns (r: Option<seq<Byte>>)
      modifies this
      ensures r.Some? <==> n == 0 || old(pos) + n <= |data|
      ensures r.Some? ==> r.value == Slice(data, old(pos), n) && |r.value| == n && pos == old(pos) + n
    {
      var got: seq<Byte> := [];
      while |got| < n
        invariant |got| <= n && got == Slice(data, old(pos), |got|)
        invariant got != [] || pos == old(pos)
        invariant pos == old(pos) + |got|
        decreases n - |got|
      {
        var chunk, eof := Read(n - |got|);
        if eof { return None; }
        got := got + chunk;
      }
      return Some(got);
    }
  }
}
